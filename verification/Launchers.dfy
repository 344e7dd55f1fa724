/**
 The launcher's own code: the methods that take the lifecycle's steps in order, with everything
 that others do in between. Each call leads from a state of some run to a state of some run, so
 that all that `Lifecycle` proves of runs holds of these programs.
 */
module Launchers {
  import opened Lifecycle

  datatype Shutdown =
    | AlreadyStopped
    | StaleRepaired
    | GracefulStop
    | ForcedStop
    | Unsafe              // an error: the record stays for inspection

  datatype Start = Startable | AlreadyRunning | Repaired

  predicate ByOthers(e: Event) {
    !e.By?
  }

  lemma OthersKeepBooks(s: State, e: Event)
    requires Enabled(s, e) && ByOthers(e)
    ensures var t := Apply(s, e);
            t.launcher == s.launcher && t.records == s.records && t.requests == s.requests && t.user == s.user
  {
  }

  /** What the launcher holds is the record on disk. */
  lemma HeldRecordIsCurrent(s: State)
    requires Reachable(s) && Lifecycle.Holding(s.launcher)
    ensures s.launcher.r.name in s.records && s.records[s.launcher.r.name] == s.launcher.r
    ensures s.launcher.Removing? ==> !Exact(s, s.launcher.r.id)
  {
    InvReachable(s);
  }

  class LifecycleState {
    var world: State
    var others: seq<seq<Event>>     // what others try to do before each of the next steps

    ghost predicate Valid()
      reads this
    {
      Reachable(world)
    }

    constructor (world: State, others: seq<seq<Event>>)
      requires Reachable(world)
      ensures Valid() && this.world == world && this.others == others
    {
      this.world, this.others := world, others;
    }

    /** The world moves on without this launcher. */
    method Meanwhile()
      requires Valid()
      modifies this
      ensures Valid() && world.launcher == old(world.launcher)
      ensures world.records == old(world.records) && world.requests == old(world.requests)
    {
      if others == [] {
        return;
      }
      var batch := others[0];
      others := others[1..];
      for i := 0 to |batch|
        invariant Valid() && world.launcher == old(world.launcher)
        invariant world.records == old(world.records) && world.requests == old(world.requests)
      {
        if ByOthers(batch[i]) && Enabled(world, batch[i]) {
          ReachableStep(world, batch[i]);
          OthersKeepBooks(world, batch[i]);
          world := Apply(world, batch[i]);
        }
      }
    }

    /** One step of this launcher. */
    method Take(m: Move)
      requires Valid() && MoveReady(world, m)
      modifies this`world
      ensures Valid() && world == MoveApply(old(world), m)
    {
      ReachableStep(world, By(m));
      world := Apply(world, By(m));
    }

    /** Takes the exclusive lock, unless another launcher has it. */
    method Enter() returns (ok: bool)
      requires Valid()
      modifies this`world
      ensures Valid() && ok == old(world.launcher.Unlocked?)
      ensures if ok then world == old(world).(launcher := Held) else world == old(world)
    {
      ok := world.launcher.Unlocked?;
      if ok {
        Take(Acquire);
      }
    }

    method Leave()
      requires Valid() && world.launcher.Held?
      modifies this`world
      ensures Valid() && world == old(world).(launcher := Unlocked)
    {
      Take(Release);
    }

    /** Unlinks the record that the launcher decided to remove; nothing but the record changes. */
    method RemoveRecord()
      requires Valid() && world.launcher.Removing?
      modifies this`world
      ensures Valid() && world.table == old(world.table) && world.sups == old(world.sups)
      ensures var r := old(world.launcher.r);
              && r.name in old(world.records) && old(world.records)[r.name] == r
              && world.records == old(world.records) - {r.name} && !Exact(world, r.id)
      ensures world.launcher ==
        if old(world.launcher.op) == Operation.Launch then Spawning(old(world.launcher.r.name)) else Held
    {
      HeldRecordIsCurrent(world);
      Take(Remove);
    }

    /** The processes that a listing shows in the group, the leader aside. */
    method ListGroup(id: Identity) returns (listed: seq<Pid>)
      ensures forall q :: q in world.table && q != id.pid && LiveMember(world, q, id.group, id.uid) ==> q in listed
    {
      var members := set q | q in world.table && q != id.pid && LiveMember(world, q, id.group, id.uid);
      listed := [];
      while members != {}
        invariant forall q :: q in world.table && q != id.pid && LiveMember(world, q, id.group, id.uid) ==>
                q in members || q in listed
        decreases |members|
      {
        var q :| q in members;
        members := members - {q};
        listed := listed + [q];
      }
    }

    /** Looks at the listed processes one by one, and stops at the first that is still a member. */
    method CheckListed(r: Record, outcome: Status, listed: seq<Pid>) returns (gone: bool)
      requires Valid() && world.launcher == Checking(r, outcome, listed)
      modifies this
      ensures Valid() && world.records == old(world.records)
      ensures world.launcher == if gone then Removing(r, Stopped(outcome), Stop) else Waiting(r, outcome)
    {
      var rest := listed;
      while rest != []
        invariant Valid() && world.records == old(world.records) && world.launcher == Checking(r, outcome, rest)
        decreases |rest|
      {
        Meanwhile();
        Take(CheckMember);
        if world.launcher.Waiting? {
          return false;
        }
        rest := rest[1..];
      }
      Take(CheckDone);
      return true;
    }

    /** Polls until the owner and its group are gone, `polls` more times at most. */
    method WaitForExit(polls: nat) returns (gone: bool)
      requires Valid() && world.launcher.Waiting?
      modifies this
      ensures Valid() && world.records == old(world.records)
      ensures world.launcher == if gone then
              Removing(old(world.launcher.r), Stopped(old(world.launcher.outcome)), Stop) else Held
    {
      var r, outcome := world.launcher.r, world.launcher.outcome;
      var remaining := polls;
      while true
        invariant Valid() && world.records == old(world.records) && world.launcher == Waiting(r, outcome)
        decreases remaining
      {
        Meanwhile();
        if !Exact(world, r.id) {
          var listed := ListGroup(r.id);
          Take(ListMembers(listed));
          gone := CheckListed(r, outcome, listed);
          if gone {
            return true;
          }
        }
        if remaining == 0 {
          Take(GiveUp);
          return false;
        }
        remaining := remaining - 1;
      }
    }

    /** From the loaded record on: compare, ask the supervisor, wait, remove. `reply` is what the caller reads
        before its time-out, if anything. */
    method StopRecorded(reply: Status, answered: bool, polls: nat) returns (d: Shutdown)
      requires Valid() && world.launcher.Inspecting? && world.launcher.op == Stop
      modifies this
      ensures Valid() && world.launcher.Held?
      ensures Concluded(d, old(world.launcher.r), old(world.records), world)
    {
      var r := world.launcher.r;
      HeldRecordIsCurrent(world);
      Meanwhile();
      Take(Compare);
      if world.launcher.Removing? {
        RemoveRecord();
        return StaleRepaired;
      }
      Meanwhile();
      if !answered || reply == Committed || (r.token, reply) !in world.answers {
        Take(RequestFailed);
        Meanwhile();
        Take(RecheckCompare);
        if world.launcher.Removing? {
          RemoveRecord();
          return StaleRepaired;
        }
        return Unsafe;
      }
      Take(Answered(reply));
      var gone := WaitForExit(polls);
      if !gone {
        return Unsafe;
      }
      StopIsClean(world);
      RemoveRecord();
      return if reply == Forced then ForcedStop else GracefulStop;
    }

    /** Stops the recorded process of a name. */
    method ShutDown(name: Name, reply: Status, answered: bool, polls: nat) returns (d: Shutdown)
      requires Valid() && world.launcher.Held?
      modifies this
      ensures Valid() && world.launcher.Held?
      ensures name !in old(world.records) ==> d == AlreadyStopped && world == old(world)
      ensures name in old(world.records) ==> Concluded(d, old(world.records)[name], old(world.records), world)
    {
      Take(Load(name, Stop));
      if world.launcher.Held? {
        return AlreadyStopped;
      }
      RecordsAreNamed(world, name);
      d := StopRecorded(reply, answered, polls);
    }

    /** Detects a running process or repairs a stale record. */
    method ReconcileBeforeStart(name: Name) returns (d: Start)
      requires Valid() && world.launcher.Held?
      modifies this
      ensures Valid() && world.launcher.Held?
      ensures d == Startable <==> name !in old(world.records)
      ensures d == AlreadyRunning ==> world.records == old(world.records) && Exact(world, world.records[name].id)
      ensures d == Repaired ==>
        world.records == old(world.records) - {name} && !Exact(world, old(world.records)[name].id)
    {
      Take(Load(name, Reconcile));
      if world.launcher.Held? {
        return Startable;
      }
      RecordsAreNamed(world, name);
      Meanwhile();
      Take(Compare);
      if world.launcher.Held? {
        return AlreadyRunning;
      }
      RemoveRecord();
      return Repaired;
    }

    /** Up to the spawn: a running process refuses the launch, a stale record is repaired first. */
    method ClearTheName(name: Name) returns (ok: bool)
      requires Valid() && world.launcher.Held?
      modifies this
      ensures Valid() && OthersKept(name, old(world.records), world.records)
      ensures if ok then world.launcher == Spawning(name) && name !in world.records
              else world.launcher.Held? && world.records == old(world.records) && name in world.records
                    && Exact(world, world.records[name].id)
    {
      Take(Load(name, Operation.Launch));
      if world.launcher.Spawning? {
        return true;
      }
      RecordsAreNamed(world, name);
      Meanwhile();
      Take(Compare);
      if world.launcher.Held? {
        return false;
      }
      RemoveRecord();
      return true;
    }

    /** Spawns the supervisor, unless the host refuses, and waits until it is ready; one that does not become
        ready is sent a signal, under the number of a child that was not reaped. */
    method SpawnSupervisor(name: Name, pid: Pid, start: nat, token: Token, ready: bool) returns (ok: bool)
      requires Valid() && world.launcher == Spawning(name)
      modifies this
      ensures Valid() && world.records == old(world.records)
      ensures if ok then world.launcher.Spawned? && world.launcher.name == name && world.launcher.token == token
              else world.launcher.Held?
    {
      Meanwhile();
      if !MoveReady(world, Spawn(pid, start, token)) {
        Take(SpawnFailed);
        return false;
      }
      Take(Spawn(pid, start, token));
      Meanwhile();
      if !ready {
        Take(Terminate);
      }
      return ready;
    }

    /** Publishes the record of the spawned supervisor, or leaves none; `ask` says whether the abandoned
        supervisor could still be asked to stop. */
    method WriteProcessRecord(ask: bool) returns (ok: bool)
      requires Valid() && world.launcher.Spawned? && world.launcher.name !in world.records
      modifies this
      ensures Valid() && OthersKept(old(world.launcher.name), old(world.records), world.records)
      ensures if ok then world.launcher.Recorded? && world.launcher.r.name == old(world.launcher.name)
              && world.launcher.r.token == old(world.launcher.token)
              else world.launcher.Held? && world.records == old(world.records)
    {
      Meanwhile();
      if !MoveReady(world, Publish) {
        Take(Abandon(ask));
        return false;
      }
      Take(Publish);
      return true;
    }

    /** Asks the recorded supervisor to commit; without its answer the record is stopped again. */
    method CommitOrRollBack(seen: bool, reply: Status, answered: bool, polls: nat) returns (ok: bool)
      requires Valid() && world.launcher.Recorded?
      modifies this
      ensures Valid() && world.launcher.Held?
              && OthersKept(old(world.launcher.r.name), old(world.records), world.records)
      ensures ok ==> world.records == old(world.records) && IsCommitted(world, old(world.launcher.r))
    {
      HeldRecordIsCurrent(world);
      Meanwhile();
      Take(SendCommit);
      Meanwhile();
      if seen && (world.launcher.r.token, Committed) in world.answers {
        CommitIsTrue(world);
        Take(CommitSeen);
        return true;
      }
      Take(RollBack);
      var d := StopRecorded(reply, answered, polls);
      return false;
    }

    /** Launches a command behind a supervisor. A record is returned only for a committed supervisor. */
    method LaunchCommand(name: Name, pid: Pid, start: nat, token: Token, ready: bool, ask: bool,
                         seen: bool, reply: Status, answered: bool, polls: nat)
      returns (ok: bool)
      requires Valid() && world.launcher.Held?
      modifies this
      ensures Valid() && world.launcher.Held? && OthersKept(name, old(world.records), world.records)
      ensures ok ==> name in world.records && IsCommitted(world, world.records[name])
    {
      ok := ClearTheName(name);
      if !ok {
        return;
      }
      ok := SpawnSupervisor(name, pid, start, token, ready);
      if !ok {
        return;
      }
      ok := WriteProcessRecord(ask);
      if !ok {
        return;
      }
      HeldRecordIsCurrent(world);
      ok := CommitOrRollBack(seen, reply, answered, polls);
    }
  }

  /** Only the record of one name may differ. */
  ghost predicate OthersKept(name: Name, before: map<Name, Record>, after: map<Name, Record>) {
    before - {name} == after - {name}
  }

  /** What a shutdown of the recorded process comes to. */
  ghost predicate Concluded(d: Shutdown, r: Record, records: map<Name, Record>, now: State) {
    && d != AlreadyStopped
    && (d == Unsafe ==> now.records == records)
    && (d != Unsafe ==> now.records == records - {r.name} && !Exact(now, r.id))
    && (d == GracefulStop ==> NoMember(now, r.id))
    && (d == ForcedStop && Sealed(now, r.id) ==> NoMember(now, r.id))
  }

  /** At the end of a successful wait, nobody of the group is left if it was sealed, as after a graceful answer. */
  lemma StopIsClean(s: State)
    requires Reachable(s) && s.launcher.Removing? && s.launcher.why.Stopped?
    ensures s.launcher.why == Stopped(Graceful) || Sealed(s, s.launcher.r.id) ==> NoMember(s, s.launcher.r.id)
  {
    InvReachable(s);
    if Sealed(s, s.launcher.r.id) {
      SealedRemovalIsClean(s);
    }
    if s.launcher.why == Stopped(Graceful) {
      GracefulLeavesNobody(s);
    }
  }

  lemma RecordsAreNamed(s: State, name: Name)
    requires Reachable(s) && name in s.records
    ensures s.records[name].name == name
  {
    InvReachable(s);
  }

  /** The recorded supervisor committed under the record's token. */
  ghost predicate IsCommitted(s: State, r: Record) {
    r.id in s.sups && s.sups[r.id].committed && s.sups[r.id].token == r.token && s.sups[r.id].name == r.name
  }

  /** The answer to a commit is the recorded supervisor's own. */
  lemma CommitIsTrue(s: State)
    requires Reachable(s) && s.launcher.Committing? && (s.launcher.r.token, Committed) in s.answers
    ensures IsCommitted(s, s.launcher.r)
  {
    InvReachable(s);
  }
}
