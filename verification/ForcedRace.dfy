/**
 One run of the lifecycle, step by step: a supervisor 1 with its command 2 is launched, committed and
 asked to stop; it answers that it will kill its group and ends before it does.
 */
module ForcedRace {
  import opened Lifecycle

  const LEADER: Identity := Identity(1, 1, 0, 0)
  const RECORD: Record := Record("octa", LEADER, 7, 0)

  /** The world without a process, under the lock. */
  function Empty(launcher: Launcher): State {
    State(0, 0, map[], {}, map[], map[], {}, {}, launcher, 0)
  }

  /** The world once the supervisor has started its command. */
  function Booted(phase: Phase, committed: bool, records: map<Name, Record>, requests: set<(Token, Action)>,
                  answers: set<(Token, Status)>, launcher: Launcher): State
  {
    State(0, 0, map[1 := Founder(1, 0, 0), 2 := ChildOf(Founder(1, 0, 0), 0)], {(1, 0), (2, 0)},
          map[LEADER := Supervisor("octa", 7, committed, PRECOMMIT_MILLIS, phase)],
          records, requests, answers, launcher, |records|)
  }

  lemma Leads(s: State, e: Event, t: State)
    requires Reachable(s) && Enabled(s, e) && Apply(s, e) == t
    ensures Reachable(t)
  {
    ReachableStep(s, e);
  }

  lemma LockHappens()
    ensures Reachable(Empty(Spawning("octa")))
  {
    assert Init(Empty(Unlocked)) && Runs(Empty(Unlocked), []) && After(Empty(Unlocked), []) == Empty(Unlocked);
    Leads(Empty(Unlocked), By(Acquire),
          Empty(Held));
    Leads(Empty(Held), By(Load("octa", Launch)),
          Empty(Spawning("octa")));
  }

  /** The forked supervisor, not yet serving. */
  function Forked(): State {
    State(0, 0, map[1 := Founder(1, 0, 0)], {(1, 0)}, map[LEADER := Supervisor("octa", 7, false, 0, Booting)],
          map[], {}, {}, Spawned("octa", LEADER, 7), 0)
  }

  lemma SpawnHappens()
    ensures Reachable(Forked())
  {
    LockHappens();
    Leads(Empty(Spawning("octa")), By(Spawn(1, 0, 7)),
          Forked());
  }

  lemma CommandStarts()
    ensures Reachable(Booted(Starting, false, map[], {}, {}, Spawned("octa", LEADER, 7)))
  {
    SpawnHappens();
    assert Serving(Forked(), LEADER) && FreshPid(Forked(), 2, 0);
    Leads(Forked(), Sup(LEADER, Boot(2, 0)),
          Booted(Starting, false, map[], {}, {}, Spawned("octa", LEADER, 7)));
  }

  lemma BootHappens()
    ensures Reachable(Booted(Top, false, map[], {}, {}, Spawned("octa", LEADER, 7)))
  {
    CommandStarts();
    Leads(Booted(Starting, false, map[], {}, {}, Spawned("octa", LEADER, 7)), Sup(LEADER, Listen),
          Booted(Top, false, map[], {}, {}, Spawned("octa", LEADER, 7)));
  }

  lemma PublishHappens()
    ensures Reachable(Booted(Top, false, map["octa" := RECORD], {(7, Commit)}, {}, Committing(RECORD)))
  {
    BootHappens();
    Leads(Booted(Top, false, map[], {}, {}, Spawned("octa", LEADER, 7)), By(Publish),
          Booted(Top, false, map["octa" := RECORD], {}, {}, Recorded(RECORD)));
    Leads(Booted(Top, false, map["octa" := RECORD], {}, {}, Recorded(RECORD)), By(SendCommit),
          Booted(Top, false, map["octa" := RECORD], {(7, Commit)}, {}, Committing(RECORD)));
  }

  lemma CommitArrives()
    ensures Reachable(Booted(Accepting, false, map["octa" := RECORD], {(7, Commit)}, {}, Committing(RECORD)))
  {
    PublishHappens();
    Leads(Booted(Top, false, map["octa" := RECORD], {(7, Commit)}, {}, Committing(RECORD)), Sup(LEADER, Accept),
          Booted(Accepting, false, map["octa" := RECORD], {(7, Commit)}, {}, Committing(RECORD)));
  }

  lemma CommitHappens()
    ensures Reachable(Booted(Top, true, map["octa" := RECORD], {(7, Commit)}, {(7, Committed)}, Committing(RECORD)))
  {
    CommitArrives();
    Leads(Booted(Accepting, false, map["octa" := RECORD], {(7, Commit)}, {}, Committing(RECORD)),
          Sup(LEADER, HandleCommit),
          Booted(Top, true, map["octa" := RECORD], {(7, Commit)}, {(7, Committed)}, Committing(RECORD)));
  }

  lemma StopIsLoaded()
    ensures Reachable(Booted(Top, true, map["octa" := RECORD], {(7, Commit)}, {(7, Committed)},
            Inspecting(RECORD, Stop)))
  {
    CommitHappens();
    Leads(Booted(Top, true, map["octa" := RECORD], {(7, Commit)}, {(7, Committed)}, Committing(RECORD)), By(CommitSeen),
          Booted(Top, true, map["octa" := RECORD], {(7, Commit)}, {(7, Committed)}, Held));
    Leads(Booted(Top, true, map["octa" := RECORD], {(7, Commit)}, {(7, Committed)}, Held), By(Load("octa", Stop)),
          Booted(Top, true, map["octa" := RECORD], {(7, Commit)}, {(7, Committed)}, Inspecting(RECORD, Stop)));
  }

  /** What the stop has asked for and what was answered so far. */
  function Stopping(phase: Phase, answers: set<(Token, Status)>, launcher: Launcher): State {
    Booted(phase, true, map["octa" := RECORD], {(7, Commit), (7, Shutdown)}, answers, launcher)
  }

  lemma StopIsAsked()
    ensures Reachable(Stopping(Accepting, {(7, Committed)}, Requested(RECORD)))
  {
    StopIsLoaded();
    Leads(Booted(Top, true, map["octa" := RECORD], {(7, Commit)}, {(7, Committed)}, Inspecting(RECORD, Stop)),
          By(Compare),
          Stopping(Top, {(7, Committed)}, Requested(RECORD)));
    Leads(Stopping(Top, {(7, Committed)}, Requested(RECORD)), Sup(LEADER, Accept),
          Stopping(Accepting, {(7, Committed)}, Requested(RECORD)));
  }

  lemma StopIsHandled()
    ensures Reachable(Stopping(Draining(true), {(7, Committed)}, Requested(RECORD)))
  {
    StopIsAsked();
    Leads(Stopping(Accepting, {(7, Committed)}, Requested(RECORD)), Sup(LEADER, HandleShutdown),
          Stopping(Draining(true), {(7, Committed)}, Requested(RECORD)));
  }

  lemma StopIsStuck()
    ensures Reachable(Stopping(Killing(true), {(7, Committed), (7, Forced)}, Requested(RECORD)))
  {
    StopIsHandled();
    Leads(Stopping(Draining(true), {(7, Committed)}, Requested(RECORD)), Sup(LEADER, Stuck),
          Stopping(Killing(true), {(7, Committed), (7, Forced)}, Requested(RECORD)));
  }

  lemma ForcedIsAnswered()
    ensures Reachable(Stopping(Killing(true), {(7, Committed), (7, Forced)}, Waiting(RECORD, Forced)))
  {
    StopIsStuck();
    Leads(Stopping(Killing(true), {(7, Committed), (7, Forced)}, Requested(RECORD)), By(Answered(Forced)),
          Stopping(Killing(true), {(7, Committed), (7, Forced)}, Waiting(RECORD, Forced)));
  }

  /** The failing case is real: a leader that ends between its forced answer and its signal leaves the command
      unkilled, and from there a run removes the record with a member of the group alive. */
  lemma ForcedCanLeaveAMember() returns (s: State, r: Record, es: seq<Event>)
    ensures Reachable(s) && s.launcher == Waiting(r, Forced) && !Exact(s, r.id) && !Sealed(s, r.id)
    ensures Runs(s, es) && After(s, es).launcher == Removing(r, Stopped(Forced), Stop)
    ensures !NoMember(After(s, es), r.id)
  {
    ForcedIsAnswered();
    r := RECORD;
    var before := Stopping(Killing(true), {(7, Committed), (7, Forced)}, Waiting(RECORD, Forced));
    s := HostApply(before, Exit(1));
    Leads(before, Host(Exit(1)), s);
    assert 2 in s.table && s.table[2].origin == LEADER && !s.table[2].doomed;
    InvReachable(s);
    es := ForkRace(s, r);
  }
}
