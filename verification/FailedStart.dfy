/**
 One run of the lifecycle in which a supervisor starts its command and then cannot open its control path:
 it exits, and the command goes on, with no record of it and nobody who would ever signal it.
 */
module FailedStart {
  import opened Lifecycle
  import opened ForcedRace

  /** The world after the failed start: the command 2 is alone in its group. */
  function Orphaned(launcher: Launcher): State {
    Booted(Starting, false, map[], {}, {}, launcher).(table := map[2 := ChildOf(Founder(1, 0, 0), 0)])
  }

  lemma StartFails()
    ensures Reachable(Orphaned(Spawned("octa", LEADER, 7)))
  {
    CommandStarts();
    Leads(Booted(Starting, false, map[], {}, {}, Spawned("octa", LEADER, 7)), Sup(LEADER, BootFailed),
          Orphaned(Spawned("octa", LEADER, 7)));
  }

  lemma LauncherGivesUp()
    ensures Reachable(Orphaned(Unlocked))
  {
    StartFails();
    Leads(Orphaned(Spawned("octa", LEADER, 7)), By(Abandon(false)),
          Orphaned(Held));
    Leads(Orphaned(Held), By(Release),
          Orphaned(Unlocked));
  }

  /** No step of the run signals the process. */
  ghost predicate NeverSignalled(s: State, es: seq<Event>, q: Pid)
    requires Runs(s, es)
    decreases |es|
  {
    es == [] || (q !in Signalled(s, es[0]) && NeverSignalled(Apply(s, es[0]), es[1..], q))
  }

  /** The process is free of its group only by its own doing or at its end. */
  predicate Disturbs(e: Event, q: Pid) {
    e == Host(Exit(q)) || e == Host(Detach(q))
  }

  lemma OrphanStays(s: State, e: Event, id: Identity, q: Pid)
    requires KernelOk(s) && Enabled(s, e) && id in s.sups && !Exact(s, id)
    requires q in s.table && s.table[q].origin == id && q != id.pid && !Disturbs(e, q)
    ensures q in Apply(s, e).table && Apply(s, e).table[q].origin == id
  {
    match e
    case By(m) => if !m.Spawn? { MoveFrame(s, m); }
    case Sup(actor, act) => OrphanOutlivesActs(s, actor, act, id, q);
    case Host(_) =>
  }

  lemma OrphanOutlivesActs(s: State, actor: Identity, act: Act, id: Identity, q: Pid)
    requires KernelOk(s) && Enabled(s, Sup(actor, act)) && id in s.sups && !Exact(s, id)
    requires q in s.table && s.table[q].origin == id && q != id.pid
    ensures q in SupApply(s, actor, act).table && SupApply(s, actor, act).table[q].origin == id
  {
    assert actor != id && actor.pid != q;
  }

  /** However a run goes on without the process itself ending or leaving, nothing ever signals it. */
  lemma {:induction false} OrphanIsNeverStopped(s: State, es: seq<Event>, id: Identity, q: Pid)
    requires Reachable(s) && Runs(s, es) && id in s.sups && !Exact(s, id)
    requires q in s.table && s.table[q].origin == id && q != id.pid && forall e :: e in es ==> !Disturbs(e, q)
    ensures NeverSignalled(s, es, q) && q in After(s, es).table
    decreases |es|
  {
    if es != [] {
      InvReachable(s);
      OrphansAreNeverSignalled(s, es[0], id, q);
      OrphanStays(s, es[0], id, q);
      DeadStaysDead(s, es[0], id);
      ReachableStep(s, es[0]);
      OrphanIsNeverStopped(Apply(s, es[0]), es[1..], id, q);
    }
  }

  /** A failed start leaves a command that runs on, unrecorded and beyond the reach of every program. */
  lemma FailedStartLeavesACommand() returns (s: State, id: Identity, q: Pid)
    ensures Reachable(s) && s.launcher == Unlocked && s.records == map[] && id in s.sups && !Exact(s, id)
    ensures q in s.table && s.table[q].origin == id && !s.table[q].doomed && !Sealed(s, id)
    ensures forall es: seq<Event> :: Runs(s, es) && (forall e :: e in es ==> !Disturbs(e, q)) ==>
      NeverSignalled(s, es, q) && q in After(s, es).table
  {
    LauncherGivesUp();
    s, id, q := Orphaned(Unlocked), LEADER, 2;
    forall es: seq<Event> | Runs(s, es) && (forall e :: e in es ==> !Disturbs(e, q))
      ensures NeverSignalled(s, es, q) && q in After(s, es).table
    {
      OrphanIsNeverStopped(s, es, id, q);
    }
  }
}
