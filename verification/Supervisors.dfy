/**
 The supervisor's serving loop as its own code: it takes the supervisor's steps of the lifecycle in
 order, with everything that others do in between, until it stops its group or something kills it.
 */
module Supervisors {
  import opened Lifecycle

  /** What one round of the loop finds: the command's end, or a request, and how the caller behaves. */
  datatype Request = Nothing | AskCommit | AskShutdown(polls: nat, callerGone: bool)

  datatype Round = Round(childEnded: bool, request: Request, polls: nat)

  datatype Ending =
    | StillServing
    | NotStarted        // it could not start its command or open its control path
    | Left              // the group was seen empty
    | KilledGroup       // it had to be killed, the supervisor with it
    | Died              // something else killed the supervisor

  predicate Own(e: Event, id: Identity) {
    e.Sup? && e.id == id
  }

  class Supervisor {
    var world: State
    var others: seq<seq<Event>>
    const id: Identity

    ghost predicate Valid()
      reads this
    {
      Reachable(world) && id in world.sups
    }

    constructor (world: State, others: seq<seq<Event>>, id: Identity)
      requires Reachable(world) && id in world.sups
      ensures Valid() && this.world == world && this.others == others && this.id == id
    {
      this.world, this.others, this.id := world, others, id;
    }

    /** The world moves on without this supervisor, and cannot change what it remembers. */
    method Meanwhile()
      requires Valid()
      modifies this
      ensures Valid() && world.sups[id] == old(world.sups[id])
      ensures Serving(world, id) ==> old(Serving(world, id))
    {
      if others == [] {
        return;
      }
      var batch := others[0];
      others := others[1..];
      for i := 0 to |batch|
        invariant Valid() && world.sups[id] == old(world.sups[id])
        invariant Serving(world, id) ==> old(Serving(world, id))
      {
        if !Own(batch[i], id) && Enabled(world, batch[i]) {
          Untouched(world, batch[i], id);
          ReachableStep(world, batch[i]);
          world := Apply(world, batch[i]);
        }
      }
    }

    /** One step of this supervisor. */
    method Take(act: Act)
      requires Valid() && Enabled(world, Sup(id, act))
      modifies this`world
      ensures Valid() && world == SupApply(old(world), id, act)
    {
      ReachableStep(world, Sup(id, act));
      world := Apply(world, Sup(id, act));
    }

    /** Starts the command and opens the control path; a failure of either ends the supervisor, and the command that
        already runs goes on without it. */
    method StartUp(pid: Pid, start: nat, started: bool, listening: bool) returns (ending: Ending)
      requires Valid() && Serving(world, id) && world.sups[id].phase == Booting
      modifies this
      ensures Valid()
      ensures ending == StillServing ==> started && listening && Serving(world, id) && world.sups[id].phase == Top
      ensures ending == NotStarted ==> !(started && listening && old(FreshPid(world, pid, start)))
      ensures ending == NotStarted ==> id.pid !in world.table && world.sups[id].phase in {Booting, Starting}
      ensures ending in {StillServing, NotStarted, Died}
    {
      if !started || !FreshPid(world, pid, start) {
        Take(BootFailed);
        return NotStarted;
      }
      Take(Boot(pid, start));
      Meanwhile();
      if !Serving(world, id) {
        return Died;
      }
      if !listening {
        Take(BootFailed);
        return NotStarted;
      }
      Take(Listen);
      return StillServing;
    }

    /** After SIGTERM to its own group: waits for the group to empty, `polls` more looks at most. */
    method WaitForEmptyGroup(polls: nat) returns (empty: bool)
      requires Valid() && Serving(world, id) && world.sups[id].phase.Draining?
      modifies this
      ensures Valid() && world.sups[id] == old(world.sups[id])
      ensures empty ==> Serving(world, id) && OnlyLeader(world, id)
    {
      var remaining := polls;
      while true
        invariant Valid() && world.sups[id] == old(world.sups[id])
        decreases remaining
      {
        Meanwhile();
        if Serving(world, id) && OnlyLeader(world, id) {
          return true;
        }
        if remaining == 0 || !Serving(world, id) {
          return false;
        }
        remaining := remaining - 1;
      }
    }

    /** Ends the group: leaves when it is empty, kills it otherwise. */
    method EndGroup(polls: nat, callerGone: bool) returns (ending: Ending)
      requires Valid() && Serving(world, id) && world.sups[id].phase.Draining?
      modifies this
      ensures Valid()
      ensures ending == StillServing ==>
        Serving(world, id) && world.sups[id].phase == Top && old(world.sups[id].phase.reply)
      ensures ending == Left || ending == KilledGroup ==> Sealed(world, id)
      ensures ending == Left ==> id.pid !in world.table
    {
      var empty := WaitForEmptyGroup(polls);
      if empty {
        if callerGone && world.sups[id].phase.reply {
          Take(Unsent);
          return StillServing;
        }
        Take(Emptied);
        Meanwhile();
        if !Serving(world, id) {
          return Died;
        }
        LeavingIsSealed(world, id);
        Take(Leave);
        return Left;
      }
      if !Serving(world, id) {
        return Died;
      }
      ending := KillGroup();
    }

    /** The group did not empty: says so to a waiting caller, and kills it. */
    method KillGroup() returns (ending: Ending)
      requires Valid() && Serving(world, id) && world.sups[id].phase.Draining?
      modifies this
      ensures Valid() && (ending == Died || (ending == KilledGroup && Sealed(world, id)))
    {
      Take(Stuck);
      Meanwhile();
      if !Serving(world, id) {
        return Died;
      }
      KillSeals(world, id);
      Take(Kill);
      return KilledGroup;
    }

    /** One round: deadline, command, request. */
    method ServeRound(round: Round) returns (ending: Ending)
      requires Valid() && Serving(world, id) && world.sups[id].phase == Top
      modifies this
      ensures Valid()
      ensures ending == StillServing ==> Serving(world, id) && world.sups[id].phase == Top
      ensures ending == Left || ending == KilledGroup ==> Sealed(world, id)
      ensures old(Expired(world, id)) ==> ending != StillServing
    {
      if Expired(world, id) {
        Take(Expire);
        ending := EndGroup(round.polls, false);
        return;
      }
      if round.childEnded {
        Take(ChildExit);
        ending := EndGroup(round.polls, false);
        return;
      }
      Take(Accept);
      Meanwhile();
      if !Serving(world, id) {
        return Died;
      }
      if round.request.AskCommit? && (world.sups[id].token, Commit) in world.requests {
        Take(HandleCommit);
        return StillServing;
      }
      if round.request.AskShutdown? && (world.sups[id].token, Shutdown) in world.requests {
        Take(HandleShutdown);
        ending := EndGroup(round.request.polls, round.request.callerGone);
        return;
      }
      Take(Idle);
      return StillServing;
    }

    /** The serving loop, observed for as many rounds as are given. */
    method Serve(rounds: seq<Round>) returns (ending: Ending)
      requires Valid() && Serving(world, id) && world.sups[id].phase == Top
      modifies this
      ensures Valid()
      ensures ending == StillServing ==> Serving(world, id) && world.sups[id].phase == Top
      ensures ending == Left || ending == KilledGroup ==> Sealed(world, id)
    {
      for i := 0 to |rounds|
        invariant Valid() && Serving(world, id) && world.sups[id].phase == Top
      {
        Meanwhile();
        if !Serving(world, id) {
          return Died;
        }
        ending := ServeRound(rounds[i]);
        if ending != StillServing {
          return;
        }
      }
      return StillServing;
    }
  }

  lemma Untouched(s: State, e: Event, id: Identity)
    requires Reachable(s) && Enabled(s, e) && id in s.sups && !Own(e, id)
    ensures id in Apply(s, e).sups && Apply(s, e).sups[id] == s.sups[id]
    ensures Serving(Apply(s, e), id) ==> Serving(s, id)
  {
    InvReachable(s);
    OthersLeaveAlone(s, e, id);
  }

  lemma LeavingIsSealed(s: State, id: Identity)
    requires Reachable(s) && Serving(s, id) && s.sups[id].phase == Leaving
    ensures Sealed(SupApply(s, id, Leave), id)
  {
    InvReachable(s);
    SealedStays(s, Sup(id, Leave), id);
  }

  /** A group signal from the leader reaches every descendant that is still in its group. */
  lemma KillSeals(s: State, id: Identity)
    requires Reachable(s) && Serving(s, id) && s.sups[id].phase.Killing?
    ensures Sealed(SupApply(s, id, Kill), id)
  {
    InvReachable(s);
  }
}
