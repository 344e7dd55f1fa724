/**
 The process lifecycle of the local stand: locked launchers, the supervisors they spawn, the ownership
 records they publish, and a host that forks, kills and reuses numbers, as one labelled transition system.
 */
module Lifecycle {

  type Pid = nat
  type Name = string
  type Token = nat

  /** What the kernel reports about a process; `start` tells two users of one number apart. */
  datatype Identity = Identity(pid: Pid, group: Pid, uid: nat, start: nat)

  /** A live process. `origin` is the identity that founded its process group. */
  datatype Process = Process(group: Pid, uid: nat, start: nat, origin: Identity, doomed: bool)

  datatype Phase =
    | Booting                  // forked, its command not started yet
    | Starting                 // its command runs, its control path is not open yet
    | Top                      // at the head of the serving loop
    | Accepting                // past the deadline and child checks of one iteration
    | Draining(reply: bool)    // SIGTERM sent, waiting for an empty group
    | Killing(reply: bool)     // the group did not empty: SIGKILL comes next
    | Leaving                  // the group was seen empty: about to exit

  datatype Supervisor = Supervisor(name: Name, token: Token, committed: bool, deadline: nat, phase: Phase)

  datatype Record = Record(name: Name, id: Identity, token: Token, inode: nat)

  datatype Action = Commit | Shutdown
  datatype Status = Committed | Graceful | Forced
  datatype Operation = Reconcile | Launch | Ready | Stop
  datatype Disposition = Stale | Stopped(outcome: Status)

  datatype Launcher =
    | Unlocked
    | Held
    | Inspecting(r: Record, op: Operation)
    | Requested(r: Record)
    | Recheck(r: Record)
    | Waiting(r: Record, outcome: Status)
    | Checking(r: Record, outcome: Status, rest: seq<Pid>)
    | Removing(r: Record, why: Disposition, op: Operation)
    | Spawning(name: Name)
    | Spawned(name: Name, id: Identity, token: Token)
    | Recorded(r: Record)
    | Committing(r: Record)

  datatype State = State(
    user: nat,
    now: nat,
    table: map<Pid, Process>,
    used: set<(Pid, nat)>,
    sups: map<Identity, Supervisor>,
    records: map<Name, Record>,
    requests: set<(Token, Action)>,
    answers: set<(Token, Status)>,
    launcher: Launcher,
    nextInode: nat)

  /** What the host does to processes on its own. */
  datatype HostAct =
    | Tick(now: nat)
    | Found(pid: Pid, uid: nat, start: nat)      // an unrelated process in a group of its own
    | Fork(parent: Pid, pid: Pid, start: nat)
    | Detach(pid: Pid)                           // leaves for a group of its own; no process joins an old group
    | Exit(pid: Pid)                             // any death, of a supervisor too

  /** One step of the launcher that holds the lock. */
  datatype Move =
    | Acquire
    | Release
    | Crash
    | Load(name: Name, op: Operation)
    | Compare
    | Answered(outcome: Status)
    | RequestFailed
    | RecheckCompare
    | ListMembers(listed: seq<Pid>)
    | GiveUp
    | CheckMember
    | CheckDone
    | Remove
    | Spawn(pid: Pid, start: nat, token: Token)
    | SpawnFailed
    | Terminate                    // SIGTERM to the number of the spawned child: it did not become ready
    | Abandon(ask: bool)
    | Publish
    | SendCommit
    | CommitSeen
    | RollBack

  /** One step of the serving loop of a supervisor. */
  datatype Act =
    | Boot(pid: Pid, start: nat)   // starts the command
    | Listen                       // opens its control path and enters the loop
    | BootFailed                   // cannot: it exits, and signals nobody
    | Accept                       // passed the deadline and child checks
    | Idle                         // timed out, status request, or a request it rejects
    | HandleCommit
    | HandleShutdown               // SIGTERM to its own group
    | Expire                       // SIGTERM: never committed in time
    | ChildExit                    // SIGTERM: the command ended
    | Emptied                      // a listing shows nobody else in the group
    | Unsent                       // same, but the caller is gone: back to the loop
    | Stuck                        // the group did not empty in time
    | Kill                         // SIGKILL to its own group
    | Leave

  /** Every interleaving, every launcher crash and every supervisor death is a sequence of these. */
  datatype Event = Host(h: HostAct) | By(m: Move) | Sup(id: Identity, act: Act)

  const PRECOMMIT_MILLIS: nat := 10_000

  // ---------------------------------------------------------------- observations

  function IdentityOf(pid: Pid, p: Process): Identity {
    Identity(pid, p.group, p.uid, p.start)
  }

  /** The recorded identity is the one the kernel reports now. */
  predicate Exact(s: State, id: Identity) {
    id.pid in s.table && IdentityOf(id.pid, s.table[id.pid]) == id
  }

  predicate LiveMember(s: State, q: Pid, group: Pid, uid: nat) {
    q in s.table && s.table[q].group == group && s.table[q].uid == uid
  }

  /** Every process a signal to the group of `id` reaches. */
  function Reached(s: State, id: Identity): set<Pid> {
    set q | q in s.table && s.table[q].group == id.group
  }

  /** No live process descends from `id` inside its group. */
  ghost predicate NoMember(s: State, id: Identity) {
    forall q :: q in s.table ==> s.table[q].origin != id
  }

  /** Whatever is left of the group of `id`, its leader aside, is already killed. */
  ghost predicate Sealed(s: State, id: Identity) {
    && id in s.sups && s.sups[id].phase != Booting
    && forall q :: q in s.table && q != id.pid && s.table[q].origin == id ==> s.table[q].doomed
  }

  predicate OwnsRecord(s: State, id: Identity)
    requires id in s.sups
  {
    s.sups[id].name in s.records && s.records[s.sups[id].name].id == id
  }

  predicate LiveCommitted(s: State, id: Identity) {
    id in s.sups && s.sups[id].committed && Exact(s, id)
  }

  // ---------------------------------------------------------------- transitions

  /** A number the kernel may hand out: free, no live group of that number, not an unreaped child,
      and never before paired with this start identity. */
  predicate FreshPid(s: State, pid: Pid, start: nat) {
    && pid !in s.table
    && (forall q :: q in s.table ==> s.table[q].group != pid)
    && (pid, start) !in s.used
    && !(s.launcher.Spawned? && s.launcher.id.pid == pid)
  }

  predicate Serving(s: State, id: Identity) {
    id in s.sups && Exact(s, id) && !s.table[id.pid].doomed
  }

  predicate IsSupervisor(s: State, pid: Pid) {
    pid in s.table && IdentityOf(pid, s.table[pid]) in s.sups
  }

  predicate Expired(s: State, id: Identity)
    requires id in s.sups
  {
    !s.sups[id].committed && s.now >= s.sups[id].deadline
  }

  predicate OnlyLeader(s: State, id: Identity) {
    forall q :: q in s.table && LiveMember(s, q, id.group, id.uid) ==> q == id.pid
  }

  predicate HostReady(s: State, h: HostAct) {
    match h
    case Tick(now) => s.now <= now
    case Found(pid, uid, start) => FreshPid(s, pid, start)
    case Fork(parent, pid, start) =>
      parent in s.table && !s.table[parent].doomed && !IsSupervisor(s, parent) && FreshPid(s, pid, start)
    case Detach(pid) =>
      pid in s.table && s.table[pid].group != pid && forall q :: q in s.table ==> s.table[q].group != pid
    case Exit(pid) => pid in s.table
  }

  predicate MoveReady(s: State, m: Move) {
    match m
    case Acquire => s.launcher.Unlocked?
    case Release => s.launcher.Held?
    case Crash => !s.launcher.Unlocked?
    case Load(_, _) => s.launcher.Held?
    case Compare => s.launcher.Inspecting?
    case Answered(o) => s.launcher.Requested? && o != Committed && (s.launcher.r.token, o) in s.answers
    case RequestFailed => s.launcher.Requested?
    case RecheckCompare => s.launcher.Recheck?
    case ListMembers(listed) =>
      && s.launcher.Waiting? && !Exact(s, s.launcher.r.id)
      && var id := s.launcher.r.id;
         forall q :: q in s.table && q != id.pid && LiveMember(s, q, id.group, id.uid) ==> q in listed
    case GiveUp => s.launcher.Waiting?
    case CheckMember => s.launcher.Checking? && s.launcher.rest != []
    case CheckDone => s.launcher.Checking? && s.launcher.rest == []
    case Remove => s.launcher.Removing?
    case Spawn(pid, start, token) =>
      s.launcher.Spawning? && FreshPid(s, pid, start)
      && (forall id :: id in s.sups ==> s.sups[id].token != token)
      && (token, Commit) !in s.requests && (forall status :: (token, status) !in s.answers)
    case SpawnFailed => s.launcher.Spawning?
    case Terminate => s.launcher.Spawned?
    case Abandon(_) => s.launcher.Spawned?
    case Publish =>
      s.launcher.Spawned? && s.launcher.id.pid in s.table && s.launcher.name !in s.records
      && var p := s.table[s.launcher.id.pid]; p.uid == s.user && p.group == s.launcher.id.pid
    case SendCommit => s.launcher.Recorded?
    case CommitSeen => s.launcher.Committing? && (s.launcher.r.token, Committed) in s.answers
    case RollBack => s.launcher.Committing? || s.launcher.Recorded?
  }

  predicate Ready(s: State, id: Identity, act: Act)
    requires id in s.sups
  {
    var v := s.sups[id];
    match act
    case Boot(pid, start) => v.phase == Booting && FreshPid(s, pid, start)
    case Listen => v.phase == Starting
    case BootFailed => v.phase == Booting || v.phase == Starting
    case Accept => v.phase == Top && !Expired(s, id)
    case Idle => v.phase == Accepting
    case HandleCommit => v.phase == Accepting && (v.token, Commit) in s.requests
    case HandleShutdown => v.phase == Accepting && (v.token, Shutdown) in s.requests
    case Expire => v.phase == Top && Expired(s, id)
    case ChildExit => v.phase == Top && !Expired(s, id)
    case Emptied => v.phase.Draining? && OnlyLeader(s, id)
    case Unsent => v.phase == Draining(true) && OnlyLeader(s, id)
    case Stuck => v.phase.Draining?
    case Kill => v.phase.Killing?
    case Leave => v.phase == Leaving
  }

  predicate Enabled(s: State, e: Event) {
    match e
    case Host(h) => HostReady(s, h)
    case By(m) => MoveReady(s, m)
    case Sup(id, act) => Serving(s, id) && Ready(s, id, act)
  }

  function Born(s: State, pid: Pid, p: Process): State {
    s.(table := s.table[pid := p], used := s.used + {(pid, p.start)})
  }

  function Founder(pid: Pid, uid: nat, start: nat): Process {
    Process(pid, uid, start, Identity(pid, pid, uid, start), false)
  }

  function ChildOf(p: Process, start: nat): Process {
    Process(p.group, p.uid, start, p.origin, false)
  }

  function Killed(table: map<Pid, Process>, group: Pid): map<Pid, Process> {
    map q | q in table :: if table[q].group == group then table[q].(doomed := true) else table[q]
  }

  function Inspected(s: State, r: Record, op: Operation): State {
    if !Exact(s, r.id) then s.(launcher := Removing(r, Stale, op))
    else if op == Stop then s.(launcher := Requested(r), requests := s.requests + {(r.token, Shutdown)})
    else s.(launcher := Held)
  }

  function Removed(s: State, r: Record, op: Operation): State {
    if r.name in s.records && s.records[r.name].inode != r.inode then s.(launcher := Held)
    else s.(records := s.records - {r.name}, launcher := if op == Launch then Spawning(r.name) else Held)
  }

  /** What a supervisor remembers after a step. */
  function Next(v: Supervisor, act: Act, now: nat): Supervisor {
    match act
    case Boot(_, _) => v.(phase := Starting, deadline := now + PRECOMMIT_MILLIS)
    case Listen => v.(phase := Top)
    case BootFailed => v
    case Accept => v.(phase := Accepting)
    case Idle => v.(phase := Top)
    case HandleCommit => v.(committed := true, phase := Top)
    case HandleShutdown => v.(phase := Draining(true))
    case Expire => v.(phase := Draining(false))
    case ChildExit => v.(phase := Draining(false))
    case Emptied => v.(phase := Leaving)
    case Unsent => v.(phase := Top)
    case Stuck => v.(phase := Killing(v.phase.Draining? && v.phase.reply))
    case Kill => v
    case Leave => v
  }

  /** What it answers on the control channel in that step. */
  function Said(v: Supervisor, act: Act): set<(Token, Status)> {
    match act
    case HandleCommit => {(v.token, Committed)}
    case Emptied => if v.phase == Draining(true) then {(v.token, Graceful)} else {}
    case Stuck => if v.phase == Draining(true) then {(v.token, Forced)} else {}
    case _ => {}
  }

  /** What it does to processes in that step. */
  function Effect(s: State, id: Identity, act: Act): State
    requires id.pid in s.table
  {
    match act
    case Boot(pid, start) => Born(s, pid, ChildOf(s.table[id.pid], start))
    case Kill => s.(table := Killed(s.table, s.table[id.pid].group))
    case Leave => s.(table := s.table - {id.pid})
    case BootFailed => s.(table := s.table - {id.pid})
    case _ => s
  }

  function HostApply(s: State, h: HostAct): State
    requires HostReady(s, h)
  {
    match h
    case Tick(now) => s.(now := now)
    case Found(pid, uid, start) => Born(s, pid, Founder(pid, uid, start))
    case Fork(parent, pid, start) => Born(s, pid, ChildOf(s.table[parent], start))
    case Detach(pid) =>
      var p := s.table[pid];
      s.(table := s.table[pid := p.(group := pid, origin := Identity(pid, pid, p.uid, p.start))])
    case Exit(pid) => s.(table := s.table - {pid})
  }

  function MoveApply(s: State, m: Move): State
    requires MoveReady(s, m)
  {
    match m
    case Acquire => s.(launcher := Held)
    case Release => s.(launcher := Unlocked)
    case Crash => s.(launcher := Unlocked)
    case Load(name, op) =>
      if name in s.records then s.(launcher := Inspecting(s.records[name], op))
      else if op == Launch then s.(launcher := Spawning(name))
      else s
    case Compare => Inspected(s, s.launcher.r, s.launcher.op)
    case Answered(o) => s.(launcher := Waiting(s.launcher.r, o))
    case RequestFailed => s.(launcher := Recheck(s.launcher.r))
    case RecheckCompare =>
      if Exact(s, s.launcher.r.id) then s.(launcher := Held)
      else s.(launcher := Removing(s.launcher.r, Stale, Stop))
    case ListMembers(listed) => s.(launcher := Checking(s.launcher.r, s.launcher.outcome, listed))
    case GiveUp => s.(launcher := Held)
    case CheckMember =>
      var l := s.launcher;
      if LiveMember(s, l.rest[0], l.r.id.group, l.r.id.uid) then s.(launcher := Waiting(l.r, l.outcome))
      else s.(launcher := Checking(l.r, l.outcome, l.rest[1..]))
    case CheckDone => s.(launcher := Removing(s.launcher.r, Stopped(s.launcher.outcome), Stop))
    case Remove => Removed(s, s.launcher.r, s.launcher.op)
    case Spawn(pid, start, token) =>
      var id := Identity(pid, pid, s.user, start);
      Born(s, pid, Founder(pid, s.user, start)).(
        sups := s.sups[id := Supervisor(s.launcher.name, token, false, 0, Booting)],
        launcher := Spawned(s.launcher.name, id, token))
    case SpawnFailed => s.(launcher := Held)
    case Terminate => s.(launcher := Held)
    case Abandon(ask) =>
      s.(launcher := Held, requests := if ask then s.requests + {(s.launcher.token, Shutdown)} else s.requests)
    case Publish =>
      var l := s.launcher;
      var r := Record(l.name, IdentityOf(l.id.pid, s.table[l.id.pid]), l.token, s.nextInode);
      s.(records := s.records[l.name := r], launcher := Recorded(r), nextInode := s.nextInode + 1)
    case SendCommit =>
      s.(requests := s.requests + {(s.launcher.r.token, Commit)}, launcher := Committing(s.launcher.r))
    case CommitSeen => s.(launcher := Held)
    case RollBack =>
      var name := s.launcher.r.name;
      if name in s.records then s.(launcher := Inspecting(s.records[name], Stop)) else s.(launcher := Held)
  }

  function SupApply(s: State, id: Identity, act: Act): State
    requires Serving(s, id) && Ready(s, id, act)
  {
    Effect(s, id, act).(
      sups := s.sups[id := Next(s.sups[id], act, s.now)],
      answers := s.answers + Said(s.sups[id], act))
  }

  function Apply(s: State, e: Event): State
    requires Enabled(s, e)
  {
    match e
    case Host(h) => HostApply(s, h)
    case By(m) => MoveApply(s, m)
    case Sup(id, act) => SupApply(s, id, act)
  }

  ghost predicate Init(s: State) {
    && s.table == map[] && s.sups == map[] && s.records == map[]
    && s.requests == {} && s.answers == {} && s.used == {} && s.launcher == Unlocked
  }

  /** `es` can be taken one after the other from `s`. */
  predicate Runs(s: State, es: seq<Event>)
    decreases |es|
  {
    es == [] || (Enabled(s, es[0]) && Runs(Apply(s, es[0]), es[1..]))
  }

  function After(s: State, es: seq<Event>): State
    requires Runs(s, es)
    decreases |es|
  {
    if es == [] then s else After(Apply(s, es[0]), es[1..])
  }

  /** `s` is a state of some run. */
  ghost predicate Reachable(s: State) {
    exists init: State, es: seq<Event> :: Init(init) && Runs(init, es) && After(init, es) == s
  }

  lemma ReachableStep(s: State, e: Event)
    requires Reachable(s) && Enabled(s, e)
    ensures Reachable(Apply(s, e))
  {
    var init: State, es: seq<Event> :| Init(init) && Runs(init, es) && After(init, es) == s;
    RunsOn(init, es, e);
  }

  lemma {:induction false} RunsOn(s: State, es: seq<Event>, e: Event)
    requires Runs(s, es) && Enabled(After(s, es), e)
    ensures Runs(s, es + [e]) && After(s, es + [e]) == Apply(After(s, es), e)
    decreases |es|
  {
    if es == [] {
      assert (es + [e])[1..] == [];
    } else {
      RunsOn(Apply(s, es[0]), es[1..], e);
      assert (es + [e])[1..] == es[1..] + [e];
    }
  }

  // ---------------------------------------------------------------- what every step keeps

  ghost predicate KernelOk(s: State) {
    && (forall p :: p in s.table ==>
          && (p, s.table[p].start) in s.used
          && s.table[p].origin.pid == s.table[p].origin.group == s.table[p].group
          && s.table[p].origin.uid == s.table[p].uid
          && (s.table[p].origin.pid, s.table[p].origin.start) in s.used
          && (s.table[p].group == p ==> s.table[p].origin == IdentityOf(p, s.table[p])))
    && (forall p, q :: p in s.table && q in s.table && s.table[p].group == s.table[q].group ==>
          s.table[p].origin == s.table[q].origin)
    && (forall id :: id in s.sups ==>
          && id.group == id.pid && id.uid == s.user && (id.pid, id.start) in s.used
          && (id.pid in s.table && s.table[id.pid].start == id.start ==> Exact(s, id)))
  }

  ghost predicate RecordsOk(s: State) {
    && (forall i, j :: i in s.sups && j in s.sups && s.sups[i].token == s.sups[j].token ==> i == j)
    && (forall n :: n in s.records ==>
          && s.records[n].name == n && s.records[n].id in s.sups
          && s.sups[s.records[n].id].name == n && s.sups[s.records[n].id].token == s.records[n].token)
    && (forall id :: id in s.sups && s.sups[id].committed ==> (s.sups[id].token, Commit) in s.requests)
    && (forall id :: id in s.sups && (s.sups[id].token, Commit) in s.requests && Exact(s, id) ==> OwnsRecord(s, id))
  }

  predicate Holding(l: Launcher) {
    l.Inspecting? || l.Requested? || l.Recheck? || l.Waiting? || l.Checking? || l.Removing?
    || l.Recorded? || l.Committing?
  }

  ghost predicate LauncherOk(s: State) {
    var l := s.launcher;
    && (Holding(l) ==> l.r.name in s.records && s.records[l.r.name] == l.r)
    && (l.Removing? || l.Checking? ==> !Exact(s, l.r.id))
    && (l.Spawning? ==> l.name !in s.records)
    && (l.Spawned? ==>
          && l.name !in s.records && l.id in s.sups
          && s.sups[l.id].name == l.name && s.sups[l.id].token == l.token
          && (l.token, Commit) !in s.requests
          && (l.id.pid in s.table ==> Exact(s, l.id)))
  }

  /** What supervisors have answered, and where they are, is true of their groups. */
  ghost predicate AnswersOk(s: State) {
    && (forall id, status :: id in s.sups && (s.sups[id].token, status) in s.answers ==>
          && s.sups[id].phase != Booting
          && (status == Graceful ==> Sealed(s, id)) && (status == Committed ==> s.sups[id].committed))
    && (forall id :: id in s.sups && s.sups[id].phase == Leaving ==> Sealed(s, id))
  }

  /** What a waiting launcher has learned stays true until it removes the record. */
  ghost predicate WaitsOk(s: State) {
    var l := s.launcher;
    && (l.Waiting? || l.Checking? ==>
          l.r.id in s.sups && s.sups[l.r.id].phase != Booting && (l.outcome == Graceful ==> Sealed(s, l.r.id)))
    && (l.Removing? && l.why == Stopped(Graceful) ==> Sealed(s, l.r.id))
    && (l.Checking? ==>
          forall q :: q in s.table && s.table[q].origin == l.r.id && s.table[q].doomed ==> q in l.rest)
    && (l.Removing? && l.why.Stopped? ==>
          forall q :: q in s.table && s.table[q].origin == l.r.id ==> !s.table[q].doomed)
  }

  ghost predicate Inv(s: State) {
    KernelOk(s) && RecordsOk(s) && LauncherOk(s) && AnswersOk(s) && WaitsOk(s)
  }

  // Each part of the invariant is followed through the three kinds of step separately.

  lemma KernelBirth(s: State, pid: Pid, p: Process)
    requires KernelOk(s) && FreshPid(s, pid, p.start)
    requires p == Founder(pid, p.uid, p.start) || exists q :: q in s.table && p == ChildOf(s.table[q], p.start)
    ensures KernelOk(Born(s, pid, p))
  {
  }

  /** Nothing but the table and the set of supervisors matters to `KernelOk`. */
  lemma KernelFrame(s: State, t: State)
    requires KernelOk(s) && t.table == s.table && t.used == s.used && t.user == s.user
    requires forall id :: id in t.sups ==>
      id in s.sups || (id.group == id.pid && id.uid == s.user && (id.pid, id.start) in s.used && Exact(s, id))
    ensures KernelOk(t)
  {
  }

  lemma KernelDeath(s: State, pid: Pid)
    requires KernelOk(s)
    ensures KernelOk(s.(table := s.table - {pid}))
  {
  }

  lemma KernelKill(s: State, group: Pid)
    requires KernelOk(s)
    ensures KernelOk(s.(table := Killed(s.table, group)))
  {
  }

  lemma KernelDetach(s: State, pid: Pid)
    requires KernelOk(s) && HostReady(s, Detach(pid))
    ensures KernelOk(HostApply(s, Detach(pid)))
  {
  }

  lemma KernelHost(s: State, h: HostAct)
    requires KernelOk(s) && HostReady(s, h)
    ensures KernelOk(HostApply(s, h))
  {
    match h
    case Tick(now) => KernelFrame(s, HostApply(s, h));
    case Found(pid, uid, start) => KernelBirth(s, pid, Founder(pid, uid, start));
    case Fork(parent, pid, start) => KernelBirth(s, pid, ChildOf(s.table[parent], start));
    case Detach(pid) => KernelDetach(s, pid);
    case Exit(pid) => KernelDeath(s, pid);
  }

  lemma KernelEffect(s: State, id: Identity, act: Act)
    requires KernelOk(s) && Serving(s, id) && Ready(s, id, act)
    ensures KernelOk(Effect(s, id, act)) && id in Effect(s, id, act).sups
  {
    if act.Boot? {
      KernelBirth(s, act.pid, ChildOf(s.table[id.pid], act.start));
    } else if act.Kill? {
      KernelKill(s, s.table[id.pid].group);
    } else if act.Leave? || act.BootFailed? {
      KernelDeath(s, id.pid);
    }
  }

  lemma KernelSup(s: State, id: Identity, act: Act)
    requires KernelOk(s) && Serving(s, id) && Ready(s, id, act)
    ensures KernelOk(SupApply(s, id, act))
  {
    KernelEffect(s, id, act);
    KernelFrame(Effect(s, id, act), SupApply(s, id, act));
  }

  /** Apart from a spawn, a launcher changes only its own place, the records and the requests. */
  lemma MoveFrame(s: State, m: Move)
    requires MoveReady(s, m) && !m.Spawn?
    ensures var t := MoveApply(s, m);
            t == s.(launcher := t.launcher, records := t.records, requests := t.requests, nextInode := t.nextInode)
  {
  }

  lemma KernelMove(s: State, m: Move)
    requires KernelOk(s) && MoveReady(s, m)
    ensures KernelOk(MoveApply(s, m))
  {
    if m.Spawn? {
      var p := Founder(m.pid, s.user, m.start);
      KernelBirth(s, m.pid, p);
      KernelFrame(Born(s, m.pid, p), MoveApply(s, m));
    } else {
      MoveFrame(s, m);
      KernelFrame(s, MoveApply(s, m));
    }
  }

  lemma DeadHost(s: State, h: HostAct, id: Identity)
    requires KernelOk(s) && HostReady(s, h) && id in s.sups && !Exact(s, id)
    ensures !Exact(HostApply(s, h), id)
  {
  }

  lemma DeadSup(s: State, actor: Identity, act: Act, id: Identity)
    requires KernelOk(s) && Serving(s, actor) && Ready(s, actor, act) && id in s.sups && !Exact(s, id)
    ensures !Exact(SupApply(s, actor, act), id)
  {
  }

  lemma DeadMove(s: State, m: Move, id: Identity)
    requires KernelOk(s) && MoveReady(s, m) && id in s.sups && !Exact(s, id)
    ensures !Exact(MoveApply(s, m), id)
  {
  }

  lemma SupervisorsKept(s: State, e: Event, id: Identity)
    requires Enabled(s, e) && id in s.sups
    ensures id in Apply(s, e).sups
  {
    if e.By? && !e.m.Spawn? {
      MoveFrame(s, e.m);
    }
  }

  /** An identity the kernel has stopped reporting is never reported again, numbers reused or not. */
  lemma DeadStaysDead(s: State, e: Event, id: Identity)
    requires KernelOk(s) && Enabled(s, e) && id in s.sups && !Exact(s, id)
    ensures id in Apply(s, e).sups && !Exact(Apply(s, e), id)
  {
    SupervisorsKept(s, e, id);
    match e
    case Host(h) => DeadHost(s, h, id);
    case By(m) => DeadMove(s, m, id);
    case Sup(actor, act) => DeadSup(s, actor, act, id);
  }

  /** A sealed group stays sealed: killed processes do not fork, and no process joins another's group. */
  lemma SealedHost(s: State, h: HostAct, id: Identity)
    requires KernelOk(s) && HostReady(s, h) && Sealed(s, id)
    ensures Sealed(HostApply(s, h), id)
  {
  }

  lemma SealedSup(s: State, actor: Identity, act: Act, id: Identity)
    requires KernelOk(s) && Serving(s, actor) && Ready(s, actor, act) && Sealed(s, id)
    ensures Sealed(SupApply(s, actor, act), id)
  {
  }

  lemma SealedMove(s: State, m: Move, id: Identity)
    requires KernelOk(s) && MoveReady(s, m) && Sealed(s, id)
    ensures Sealed(MoveApply(s, m), id)
  {
    if !m.Spawn? {
      MoveFrame(s, m);
    }
  }

  lemma SealedStays(s: State, e: Event, id: Identity)
    requires KernelOk(s) && Enabled(s, e) && Sealed(s, id)
    ensures Sealed(Apply(s, e), id)
  {
    match e
    case Host(h) => SealedHost(s, h, id);
    case By(m) => SealedMove(s, m, id);
    case Sup(actor, act) => SealedSup(s, actor, act, id);
  }

  /** The parts of the state that `RecordsOk` reads have not moved, and no dead identity came back. */
  ghost predicate SameBooks(s: State, t: State) {
    && t.records == s.records && t.sups.Keys == s.sups.Keys
    && (forall id :: id in s.sups ==>
          && t.sups[id].name == s.sups[id].name && t.sups[id].token == s.sups[id].token
          && t.sups[id].committed == s.sups[id].committed && (Exact(t, id) ==> Exact(s, id)))
    && (forall k :: (k, Commit) in t.requests <==> (k, Commit) in s.requests)
  }

  lemma RecordsFrame(s: State, t: State)
    requires RecordsOk(s) && SameBooks(s, t)
    ensures RecordsOk(t)
  {
  }

  lemma RecordsHost(s: State, h: HostAct)
    requires KernelOk(s) && RecordsOk(s) && HostReady(s, h)
    ensures RecordsOk(HostApply(s, h))
  {
    forall id | id in s.sups && !Exact(s, id) { DeadHost(s, h, id); }
    RecordsFrame(s, HostApply(s, h));
  }

  lemma RecordsHandleCommit(s: State, id: Identity)
    requires RecordsOk(s) && Serving(s, id) && Ready(s, id, HandleCommit)
    ensures RecordsOk(SupApply(s, id, HandleCommit))
  {
    var t := SupApply(s, id, HandleCommit);
    assert t.table == s.table && t.records == s.records && t.requests == s.requests;
    assert forall i :: i in t.sups <==> i in s.sups;
    assert forall i :: i in s.sups ==> t.sups[i].token == s.sups[i].token && t.sups[i].name == s.sups[i].name;
  }

  lemma RecordsSup(s: State, id: Identity, act: Act)
    requires KernelOk(s) && RecordsOk(s) && Serving(s, id) && Ready(s, id, act)
    ensures RecordsOk(SupApply(s, id, act))
  {
    if act.HandleCommit? {
      RecordsHandleCommit(s, id);
    } else {
      SupKeepsBooks(s, id, act);
      RecordsFrame(s, SupApply(s, id, act));
    }
  }

  lemma SupKeepsBooks(s: State, id: Identity, act: Act)
    requires KernelOk(s) && Serving(s, id) && Ready(s, id, act) && !act.HandleCommit?
    ensures SameBooks(s, SupApply(s, id, act))
  {
    forall i | i in s.sups && !Exact(s, i) { DeadSup(s, id, act, i); }
  }

  predicate BookMove(m: Move) {
    m.Remove? || m.Spawn? || m.Publish? || m.SendCommit?
  }

  /** Removal is safe: only the record of an identity that is gone is ever unlinked. */
  lemma RecordsRemove(s: State)
    requires RecordsOk(s) && LauncherOk(s) && MoveReady(s, Remove)
    ensures RecordsOk(MoveApply(s, Remove))
  {
  }

  lemma RecordsNewcomer(s: State, t: State, id: Identity, v: Supervisor)
    requires RecordsOk(s) && t.records == s.records && t.requests == s.requests
    requires id !in s.sups && t.sups == s.sups[id := v]
    requires !v.committed && (v.token, Commit) !in s.requests && forall i :: i in s.sups ==> s.sups[i].token != v.token
    requires forall i :: i in s.sups && Exact(t, i) ==> Exact(s, i)
    ensures RecordsOk(t)
  {
  }

  lemma RecordsSpawn(s: State, pid: Pid, start: nat, token: Token)
    requires KernelOk(s) && RecordsOk(s) && MoveReady(s, Spawn(pid, start, token))
    ensures RecordsOk(MoveApply(s, Spawn(pid, start, token)))
  {
    var born := Identity(pid, pid, s.user, start);
    forall id | id in s.sups && !Exact(s, id) { DeadMove(s, Spawn(pid, start, token), id); }
    RecordsNewcomer(s, MoveApply(s, Spawn(pid, start, token)), born,
                    Supervisor(s.launcher.name, token, false, 0, Booting));
  }

  /** The record that is published names the spawned supervisor, whatever happened to its number. */
  lemma RecordsPublish(s: State)
    requires RecordsOk(s) && LauncherOk(s) && MoveReady(s, Publish)
    ensures RecordsOk(MoveApply(s, Publish))
  {
    var l, t := s.launcher, MoveApply(s, Publish);
    var r := t.launcher.r;
    assert t == s.(records := s.records[l.name := r], launcher := Recorded(r), nextInode := s.nextInode + 1);
    assert r.id == l.id && r.token == l.token && r.name == l.name;
    RecordsExtended(s, t, r);
  }

  /** A record may be added for a supervisor whose name has none. */
  lemma RecordsExtended(s: State, t: State, r: Record)
    requires RecordsOk(s) && t.records == s.records[r.name := r] && r.name !in s.records
    requires t.table == s.table && t.sups == s.sups && t.requests == s.requests
    requires r.id in s.sups && s.sups[r.id].name == r.name && s.sups[r.id].token == r.token
    ensures RecordsOk(t)
  {
    forall id | id in t.sups && (t.sups[id].token, Commit) in t.requests && Exact(t, id) ensures OwnsRecord(t, id) {
      assert Exact(s, id) && OwnsRecord(s, id);
    }
  }

  lemma RecordsSendCommit(s: State)
    requires RecordsOk(s) && LauncherOk(s) && MoveReady(s, SendCommit)
    ensures RecordsOk(MoveApply(s, SendCommit))
  {
  }

  /** The other moves leave the records alone, and ask for nothing but a shutdown. */
  lemma RequestsKept(s: State, m: Move)
    requires MoveReady(s, m) && !BookMove(m)
    ensures MoveApply(s, m).records == s.records
    ensures forall k :: (k, Commit) in MoveApply(s, m).requests <==> (k, Commit) in s.requests
  {
  }

  lemma BooksKept(s: State, t: State)
    requires t.records == s.records && t.sups == s.sups && t.table == s.table
    requires forall k :: (k, Commit) in t.requests <==> (k, Commit) in s.requests
    ensures SameBooks(s, t)
  {
  }

  lemma RecordsMove(s: State, m: Move)
    requires KernelOk(s) && RecordsOk(s) && LauncherOk(s) && MoveReady(s, m)
    ensures RecordsOk(MoveApply(s, m))
  {
    if m.Remove? {
      RecordsRemove(s);
    } else if m.Spawn? {
      RecordsSpawn(s, m.pid, m.start, m.token);
    } else if m.Publish? {
      RecordsPublish(s);
    } else if m.SendCommit? {
      RecordsSendCommit(s);
    } else {
      MoveFrame(s, m);
      RequestsKept(s, m);
      BooksKept(s, MoveApply(s, m));
      RecordsFrame(s, MoveApply(s, m));
    }
  }

  /** Whatever other programs do, the launcher's view of its record stays right. */
  lemma LauncherHost(s: State, h: HostAct)
    requires KernelOk(s) && RecordsOk(s) && LauncherOk(s) && HostReady(s, h)
    ensures LauncherOk(HostApply(s, h))
  {
    if Holding(s.launcher) && !Exact(s, s.launcher.r.id) { DeadHost(s, h, s.launcher.r.id); }
  }

  lemma LauncherSup(s: State, id: Identity, act: Act)
    requires KernelOk(s) && RecordsOk(s) && LauncherOk(s) && Serving(s, id) && Ready(s, id, act)
    ensures LauncherOk(SupApply(s, id, act))
  {
    if Holding(s.launcher) && !Exact(s, s.launcher.r.id) { DeadSup(s, id, act, s.launcher.r.id); }
  }

  lemma LauncherSpawn(s: State, pid: Pid, start: nat, token: Token)
    requires LauncherOk(s) && MoveReady(s, Spawn(pid, start, token))
    ensures LauncherOk(MoveApply(s, Spawn(pid, start, token)))
  {
  }

  lemma LauncherPublish(s: State)
    requires RecordsOk(s) && LauncherOk(s) && MoveReady(s, Publish)
    ensures LauncherOk(MoveApply(s, Publish))
  {
  }

  lemma LauncherRemove(s: State)
    requires LauncherOk(s) && MoveReady(s, Remove)
    ensures LauncherOk(MoveApply(s, Remove))
  {
  }

  /** Any other move only goes to another place, with the record that it has or with one that it loads. */
  lemma LauncherOtherMove(s: State, m: Move)
    requires RecordsOk(s) && LauncherOk(s) && MoveReady(s, m) && !m.Spawn? && !m.Publish? && !m.Remove?
    ensures LauncherOk(MoveApply(s, m))
  {
    var t := MoveApply(s, m);
    MoveFrame(s, m);
    assert t.records == s.records && !t.launcher.Spawned?;
    assert t.launcher.Removing? || t.launcher.Checking? ==> !Exact(s, t.launcher.r.id);
  }

  lemma LauncherMove(s: State, m: Move)
    requires RecordsOk(s) && LauncherOk(s) && MoveReady(s, m)
    ensures LauncherOk(MoveApply(s, m))
  {
    if m.Spawn? {
      LauncherSpawn(s, m.pid, m.start, m.token);
    } else if m.Publish? {
      LauncherPublish(s);
    } else if m.Remove? {
      LauncherRemove(s);
    } else {
      LauncherOtherMove(s, m);
    }
  }

  lemma AnswersHost(s: State, h: HostAct)
    requires KernelOk(s) && AnswersOk(s) && HostReady(s, h)
    ensures AnswersOk(HostApply(s, h))
  {
    forall id | Sealed(s, id) ensures Sealed(HostApply(s, h), id) { SealedHost(s, h, id); }
  }

  lemma AnswersEmptied(s: State, actor: Identity)
    requires KernelOk(s) && Serving(s, actor) && Ready(s, actor, Emptied)
    ensures Sealed(SupApply(s, actor, Emptied), actor)
  {
  }

  /** Only the acting supervisor's own answers and place change. */
  lemma AnswersSup(s: State, actor: Identity, act: Act)
    requires KernelOk(s) && RecordsOk(s) && AnswersOk(s) && Serving(s, actor) && Ready(s, actor, act)
    ensures AnswersOk(SupApply(s, actor, act))
  {
    var t := SupApply(s, actor, act);
    forall id | id in t.sups && t.sups[id].phase == Leaving ensures Sealed(t, id) {
      LeavingSup(s, actor, act, id);
    }
    forall id, status | id in t.sups && (t.sups[id].token, status) in t.answers
      ensures t.sups[id].phase != Booting
      ensures (status == Graceful ==> Sealed(t, id)) && (status == Committed ==> t.sups[id].committed)
    {
      AnswerSup(s, actor, act, id, status);
    }
  }

  lemma LeavingSup(s: State, actor: Identity, act: Act, id: Identity)
    requires KernelOk(s) && AnswersOk(s) && Serving(s, actor) && Ready(s, actor, act)
    requires id in s.sups && SupApply(s, actor, act).sups[id].phase == Leaving
    ensures Sealed(SupApply(s, actor, act), id)
  {
    if id == actor && act.Emptied? {
      AnswersEmptied(s, actor);
    } else {
      SealedSup(s, actor, act, id);
    }
  }

  lemma AnswerSup(s: State, actor: Identity, act: Act, id: Identity, status: Status)
    requires KernelOk(s) && RecordsOk(s) && AnswersOk(s) && Serving(s, actor) && Ready(s, actor, act) && id in s.sups
    requires (s.sups[id].token, status) in SupApply(s, actor, act).answers
    ensures var t := SupApply(s, actor, act);
            && t.sups[id].phase != Booting
            && (status == Graceful ==> Sealed(t, id)) && (status == Committed ==> t.sups[id].committed)
  {
    if (s.sups[id].token, status) in s.answers {
      if status == Graceful { SealedSup(s, actor, act, id); }
    } else {
      assert id == actor;
      if act.Emptied? { AnswersEmptied(s, actor); }
    }
  }

  lemma AnswersSpawn(s: State, pid: Pid, start: nat, token: Token)
    requires KernelOk(s) && AnswersOk(s) && MoveReady(s, Spawn(pid, start, token))
    ensures AnswersOk(MoveApply(s, Spawn(pid, start, token)))
  {
    var m := Spawn(pid, start, token);
    forall id | Sealed(s, id) ensures Sealed(MoveApply(s, m), id) { SealedMove(s, m, id); }
  }

  lemma AnswersFrame(s: State, t: State)
    requires AnswersOk(s) && t.table == s.table && t.sups == s.sups && t.answers == s.answers
    ensures AnswersOk(t)
  {
    assert forall id :: Sealed(s, id) ==> Sealed(t, id);
  }

  lemma AnswersMove(s: State, m: Move)
    requires KernelOk(s) && AnswersOk(s) && MoveReady(s, m)
    ensures AnswersOk(MoveApply(s, m))
  {
    if m.Spawn? {
      AnswersSpawn(s, m.pid, m.start, m.token);
    } else {
      MoveFrame(s, m);
      AnswersFrame(s, MoveApply(s, m));
    }
  }

  lemma WaitsHost(s: State, h: HostAct)
    requires KernelOk(s) && RecordsOk(s) && LauncherOk(s) && WaitsOk(s) && HostReady(s, h)
    ensures WaitsOk(HostApply(s, h))
  {
    forall id | Sealed(s, id) ensures Sealed(HostApply(s, h), id) { SealedHost(s, h, id); }
  }

  lemma WaitsSup(s: State, actor: Identity, act: Act)
    requires KernelOk(s) && LauncherOk(s) && WaitsOk(s) && Serving(s, actor) && Ready(s, actor, act)
    ensures WaitsOk(SupApply(s, actor, act))
  {
    forall id | Sealed(s, id) ensures Sealed(SupApply(s, actor, act), id) { SealedSup(s, actor, act, id); }
  }

  /** An answer is believed only for the supervisor whose token the record holds. */
  lemma WaitsAnswered(s: State, outcome: Status)
    requires RecordsOk(s) && LauncherOk(s) && AnswersOk(s) && MoveReady(s, Answered(outcome))
    ensures WaitsOk(MoveApply(s, Answered(outcome)))
  {
    var id := s.launcher.r.id;
    assert id in s.sups && (s.sups[id].token, outcome) in s.answers;
  }

  lemma WaitsListed(s: State, listed: seq<Pid>)
    requires KernelOk(s) && RecordsOk(s) && LauncherOk(s) && WaitsOk(s) && MoveReady(s, ListMembers(listed))
    ensures WaitsOk(MoveApply(s, ListMembers(listed)))
  {
    var id := s.launcher.r.id;
    assert id in s.sups;
    forall q | q in s.table && s.table[q].origin == id ensures q in listed {
      assert q == id.pid ==> Exact(s, id);
      assert LiveMember(s, q, id.group, id.uid);
    }
  }

  lemma WaitsChecked(s: State)
    requires KernelOk(s) && RecordsOk(s) && LauncherOk(s) && WaitsOk(s) && MoveReady(s, CheckMember)
    ensures WaitsOk(MoveApply(s, CheckMember))
  {
    var id := s.launcher.r.id;
    assert id in s.sups;
    assert forall q :: q in s.table && s.table[q].origin == id ==> LiveMember(s, q, id.group, id.uid);
  }

  lemma WaitsMove(s: State, m: Move)
    requires Inv(s) && MoveReady(s, m)
    ensures WaitsOk(MoveApply(s, m))
  {
    if m.Answered? {
      WaitsAnswered(s, m.outcome);
    } else if m.ListMembers? {
      WaitsListed(s, m.listed);
    } else if m.CheckMember? {
      WaitsChecked(s);
    } else if m.CheckDone? {
      assert s.launcher.rest == [];
    } else {
      var l := MoveApply(s, m).launcher;
      assert !l.Waiting? && !l.Checking? && (l.Removing? ==> l.why == Stale);
    }
  }

  /** Every step of every program and of the host keeps the invariant. */
  lemma InvStep(s: State, e: Event)
    requires Inv(s) && Enabled(s, e)
    ensures Inv(Apply(s, e))
  {
    match e
    case Host(h) =>
      KernelHost(s, h);
      RecordsHost(s, h);
      LauncherHost(s, h);
      AnswersHost(s, h);
      WaitsHost(s, h);
    case By(m) =>
      KernelMove(s, m);
      RecordsMove(s, m);
      LauncherMove(s, m);
      AnswersMove(s, m);
      WaitsMove(s, m);
    case Sup(id, act) =>
      KernelSup(s, id, act);
      RecordsSup(s, id, act);
      LauncherSup(s, id, act);
      AnswersSup(s, id, act);
      WaitsSup(s, id, act);
  }

  lemma {:induction false} InvRun(s: State, es: seq<Event>)
    requires Inv(s) && Runs(s, es)
    ensures Inv(After(s, es))
    decreases |es|
  {
    if es != [] {
      InvStep(s, es[0]);
      InvRun(Apply(s, es[0]), es[1..]);
    }
  }

  lemma InvReachable(s: State)
    requires Reachable(s)
    ensures Inv(s)
  {
    var init: State, es: seq<Event> :| Init(init) && Runs(init, es) && After(init, es) == s;
    InvRun(init, es);
  }

  // ---------------------------------------------------------------- one committed owner per name

  /** In every run, the record on disk names exactly the live committed supervisor; so a name never
      has two. */
  lemma CommittedIsRecorded(s: State, id: Identity)
    requires Reachable(s) && LiveCommitted(s, id)
    ensures OwnsRecord(s, id) && s.records[s.sups[id].name].token == s.sups[id].token
    ensures forall other :: LiveCommitted(s, other) && s.sups[other].name == s.sups[id].name ==> other == id
  {
    InvReachable(s);
  }

  /** Publication never meets an existing record: the exclusive link of a live spawn always succeeds. */
  lemma PublishNeverCollides(s: State)
    requires Reachable(s) && s.launcher.Spawned?
    ensures s.launcher.name !in s.records
    ensures Exact(s, s.launcher.id) ==>
      MoveReady(s, Publish) && MoveApply(s, Publish).records[s.launcher.name].id == s.launcher.id
  {
    InvReachable(s);
  }

  /** The commit request of `token` was never sent and no launcher is left that could send it. */
  ghost predicate Forsaken(s: State, id: Identity) {
    && id in s.sups && !s.sups[id].committed
    && (s.sups[id].token, Commit) !in s.requests
    && !(s.launcher.Spawned? && s.launcher.token == s.sups[id].token)
    && !(s.launcher.Recorded? && s.launcher.r.token == s.sups[id].token)
  }

  lemma ForsakenSpawn(s: State, m: Move, id: Identity)
    requires KernelOk(s) && RecordsOk(s) && MoveReady(s, m) && Forsaken(s, id) && m.Spawn?
    ensures Forsaken(MoveApply(s, m), id)
  {
    MoveLeavesAlone(s, m, id);
    assert m.token != s.sups[id].token;
  }

  lemma ForsakenOtherMove(s: State, m: Move, id: Identity)
    requires MoveReady(s, m) && Forsaken(s, id) && !m.Spawn?
    ensures Forsaken(MoveApply(s, m), id)
  {
    assert MoveApply(s, m).sups == s.sups;
    assert (s.sups[id].token, Commit) !in MoveApply(s, m).requests;
  }

  lemma ForsakenMove(s: State, m: Move, id: Identity)
    requires KernelOk(s) && RecordsOk(s) && LauncherOk(s) && MoveReady(s, m) && Forsaken(s, id)
    ensures Forsaken(MoveApply(s, m), id)
  {
    if m.Spawn? {
      ForsakenSpawn(s, m, id);
    } else {
      ForsakenOtherMove(s, m, id);
    }
  }

  lemma ForsakenSup(s: State, actor: Identity, act: Act, id: Identity)
    requires RecordsOk(s) && Serving(s, actor) && Ready(s, actor, act) && Forsaken(s, id)
    ensures Forsaken(SupApply(s, actor, act), id)
  {
  }

  lemma ForsakenHost(s: State, h: HostAct, id: Identity)
    requires HostReady(s, h) && Forsaken(s, id)
    ensures Forsaken(HostApply(s, h), id)
  {
  }

  lemma ForsakenStep(s: State, e: Event, id: Identity)
    requires Inv(s) && Enabled(s, e) && Forsaken(s, id)
    ensures Forsaken(Apply(s, e), id)
  {
    if e.By? {
      ForsakenMove(s, e.m, id);
    } else if e.Sup? {
      ForsakenSup(s, e.id, e.act, id);
    } else {
      ForsakenHost(s, e.h, id);
    }
  }

  /** A launcher that crashes before it sent the commit leaves a supervisor nobody ever commits. */
  lemma {:induction false} CrashedLaunchNeverCommits(s: State, es: seq<Event>, id: Identity)
    requires Inv(s) && Runs(s, es) && Forsaken(s, id)
    ensures Forsaken(After(s, es), id)
    decreases |es|
  {
    if es != [] {
      ForsakenStep(s, es[0], id);
      InvStep(s, es[0]);
      CrashedLaunchNeverCommits(Apply(s, es[0]), es[1..], id);
    }
  }

  lemma CrashForsakes(s: State, id: Identity)
    requires Reachable(s) && MoveReady(s, Crash) && id in s.sups && (s.sups[id].token, Commit) !in s.requests
    ensures Inv(MoveApply(s, Crash)) && Forsaken(MoveApply(s, Crash), id)
  {
    InvReachable(s);
    InvStep(s, By(Crash));
  }

  // ---------------------------------------------------------------- the precommit deadline

  function OwnSteps(es: seq<Event>, id: Identity): nat {
    if es == [] then 0
    else (if es[0].Sup? && es[0].id == id then 1 else 0) + OwnSteps(es[1..], id)
  }

  predicate PastDeadline(s: State, id: Identity)
    requires id in s.sups
  {
    s.sups[id].phase != Booting && Expired(s, id)
  }

  /** A bound on the own steps left to a supervisor that is past its deadline and never committed. */
  function Patience(s: State, id: Identity): nat
    requires id in s.sups
  {
    if !Serving(s, id) then 0
    else match s.sups[id].phase
      case Booting => 7
      case Starting => 5
      case Accepting => 6
      case Draining(reply) => if reply then 5 else 2
      case Top => 4
      case Killing(_) => 1
      case Leaving => 1
  }

  predicate OwnStep(e: Event, id: Identity) {
    e.Sup? && e.id == id
  }

  /** Another supervisor's steps reach neither the group nor the memory of `id`. */
  lemma OthersLeaveAlone(s: State, e: Event, id: Identity)
    requires KernelOk(s) && Enabled(s, e) && id in s.sups && !OwnStep(e, id)
    ensures id in Apply(s, e).sups && Apply(s, e).sups[id] == s.sups[id]
    ensures Serving(Apply(s, e), id) ==> Serving(s, id)
    ensures Serving(s, id) && !Serving(Apply(s, e), id) ==> e == Host(Exit(id.pid))
  {
    if e.By? {
      MoveLeavesAlone(s, e.m, id);
    } else if e.Sup? {
      SupLeavesAlone(s, e.id, e.act, id);
    } else {
      HostLeavesAlone(s, e.h, id);
    }
  }

  lemma HostLeavesAlone(s: State, h: HostAct, id: Identity)
    requires KernelOk(s) && HostReady(s, h) && id in s.sups
    ensures HostApply(s, h).sups == s.sups
    ensures Serving(HostApply(s, h), id) ==> Serving(s, id)
    ensures Serving(s, id) && !Serving(HostApply(s, h), id) ==> h == Exit(id.pid)
  {
  }

  lemma MoveLeavesAlone(s: State, m: Move, id: Identity)
    requires KernelOk(s) && MoveReady(s, m) && id in s.sups
    ensures id in MoveApply(s, m).sups && MoveApply(s, m).sups[id] == s.sups[id]
    ensures Serving(MoveApply(s, m), id) <==> Serving(s, id)
  {
    if m.Spawn? {
      assert (m.pid, m.start) !in s.used;
    } else {
      MoveFrame(s, m);
    }
  }

  lemma SupLeavesAlone(s: State, actor: Identity, act: Act, id: Identity)
    requires KernelOk(s) && Serving(s, actor) && Ready(s, actor, act) && id in s.sups && id != actor
    ensures SupApply(s, actor, act).sups[id] == s.sups[id]
    ensures Serving(SupApply(s, actor, act), id) <==> Serving(s, id)
  {
  }

  lemma PatienceStep(s: State, e: Event, id: Identity)
    requires Inv(s) && Enabled(s, e) && Forsaken(s, id) && PastDeadline(s, id)
    ensures Forsaken(Apply(s, e), id) && PastDeadline(Apply(s, e), id)
    ensures Patience(Apply(s, e), id) + (if OwnStep(e, id) then 1 else 0) <= Patience(s, id)
  {
    ForsakenStep(s, e, id);
    if OwnStep(e, id) {
      PatienceOwn(s, id, e.act);
    } else {
      OthersLeaveAlone(s, e, id);
      ClockStep(s, e);
      PatienceWaits(s, Apply(s, e), id);
    }
  }

  lemma PatienceOwn(s: State, id: Identity, act: Act)
    requires Serving(s, id) && Ready(s, id, act) && Forsaken(s, id) && PastDeadline(s, id)
    ensures var t := SupApply(s, id, act); PastDeadline(t, id) && Patience(t, id) < Patience(s, id)
  {
  }

  lemma PatienceWaits(s: State, t: State, id: Identity)
    requires id in s.sups && PastDeadline(s, id) && id in t.sups && t.sups[id] == s.sups[id] && t.now >= s.now
    requires Serving(t, id) ==> Serving(s, id)
    ensures PastDeadline(t, id) && Patience(t, id) <= Patience(s, id)
  {
  }

  lemma ClockStep(s: State, e: Event)
    requires Enabled(s, e)
    ensures Apply(s, e).now >= s.now
  {
    if e.By? {
      assert MoveApply(s, e.m).now == s.now;
    }
  }

  lemma PatienceIsSmall(s: State, id: Identity)
    requires id in s.sups && PastDeadline(s, id)
    ensures Patience(s, id) <= 6
  {
  }

  lemma {:induction false} PatienceBoundsSteps(s: State, es: seq<Event>, id: Identity)
    requires Inv(s) && Runs(s, es) && Forsaken(s, id) && PastDeadline(s, id)
    ensures OwnSteps(es, id) <= Patience(s, id)
    decreases |es|
  {
    if es != [] {
      PatienceStep(s, es[0], id);
      InvStep(s, es[0]);
      PatienceBoundsSteps(Apply(s, es[0]), es[1..], id);
    }
  }

  /** Past its deadline, a supervisor nobody committed takes at most six more steps of its own, */
  lemma DeadlineBoundsSteps(s: State, es: seq<Event>, id: Identity)
    requires Inv(s) && Runs(s, es) && Forsaken(s, id) && PastDeadline(s, id)
    ensures OwnSteps(es, id) <= 6
  {
    PatienceBoundsSteps(s, es, id);
    PatienceIsSmall(s, id);
  }

  /** has one of them enabled for as long as it lives unkilled, */
  lemma DeadlineNeverBlocks(s: State, id: Identity)
    requires id in s.sups && Serving(s, id) && PastDeadline(s, id)
    ensures exists act :: Ready(s, id, act) && !act.Accept? && !act.ChildExit?
  {
    match s.sups[id].phase
    case Starting => assert Ready(s, id, Listen);
    case Top => assert Ready(s, id, Expire);
    case Accepting => assert Ready(s, id, Idle);
    case Draining(_) => assert Ready(s, id, Stuck);
    case Killing(_) => assert Ready(s, id, Kill);
    case Leaving => assert Ready(s, id, Leave);
  }

  /** and, unless the host ends it or it fails to start, goes only once nothing unkilled is left of its group. */
  lemma StopsOnlySealed(s: State, e: Event, id: Identity)
    requires Reachable(s) && Enabled(s, e) && id in s.sups && Serving(s, id) && !Serving(Apply(s, e), id)
    ensures e == Host(Exit(id.pid)) || e == Sup(id, BootFailed)
            || ((e == Sup(id, Kill) || e == Sup(id, Leave)) && Sealed(Apply(s, e), id))
  {
    InvReachable(s);
    LastStepSeals(s, e, id);
  }

  lemma LastStepSeals(s: State, e: Event, id: Identity)
    requires Inv(s) && Enabled(s, e) && id in s.sups && Serving(s, id) && !Serving(Apply(s, e), id)
    ensures e == Host(Exit(id.pid)) || e == Sup(id, BootFailed)
            || ((e == Sup(id, Kill) || e == Sup(id, Leave)) && Sealed(Apply(s, e), id))
  {
    if OwnStep(e, id) {
      OwnLastStep(s, id, e.act);
    } else {
      OthersLeaveAlone(s, e, id);
    }
  }

  lemma OwnLastStep(s: State, id: Identity, act: Act)
    requires KernelOk(s) && AnswersOk(s) && Serving(s, id) && Ready(s, id, act) && !Serving(SupApply(s, id, act), id)
    ensures act.BootFailed? || ((act.Kill? || act.Leave?) && Sealed(SupApply(s, id, act), id))
  {
    if act.Leave? {
      SealedSup(s, id, act, id);
    }
  }

  /** Over a whole run: however it goes on from there, once such a supervisor has stopped serving, the host
      ended it, or it was still starting and failed to, or nothing unkilled is left of its group. */
  lemma {:induction false} DeadlineStopsTheGroup(s: State, es: seq<Event>, id: Identity)
    requires Inv(s) && Runs(s, es) && Forsaken(s, id) && PastDeadline(s, id) && Serving(s, id)
    requires !Serving(After(s, es), id)
    ensures Host(Exit(id.pid)) in es || (s.sups[id].phase == Starting && Sup(id, BootFailed) in es)
            || Sealed(After(s, es), id)
    decreases |es|
  {
    var e, t := es[0], Apply(s, es[0]);
    InvStep(s, e);
    PatienceStep(s, e, id);
    if Serving(t, id) {
      StartsOnce(s, e, id);
      DeadlineStopsTheGroup(t, es[1..], id);
    } else {
      LastStepSeals(s, e, id);
      if e != Host(Exit(id.pid)) && e != Sup(id, BootFailed) {
        SealedRun(t, es[1..], id);
      }
    }
  }

  lemma StartsOnce(s: State, e: Event, id: Identity)
    requires KernelOk(s) && Enabled(s, e) && id in s.sups && s.sups[id].phase != Booting
    ensures id in Apply(s, e).sups && (Apply(s, e).sups[id].phase == Starting ==> s.sups[id].phase == Starting)
  {
    if !OwnStep(e, id) {
      OthersLeaveAlone(s, e, id);
    }
  }

  // ---------------------------------------------------------------- signals

  predicate SendsSignal(act: Act) {
    act.HandleShutdown? || act.Expire? || act.ChildExit? || act.Kill?
  }

  /** The process numbers that a step signals. A launcher has but one signal, to a child that did not become
      ready; a supervisor signals its group by number. What a signal does to a process is up to the host. */
  function Signalled(s: State, e: Event): set<Pid>
    requires Enabled(s, e)
  {
    match e
    case Host(_) => {}
    case By(m) => if m.Terminate? then {s.launcher.id.pid} else {}
    case Sup(id, act) => if SendsSignal(act) then Reached(s, id) else {}
  }

  /** Every group signal comes from the live leader of the group, and whatever the host did with
      process numbers, it reaches only that leader and what descends from it inside the group. */
  lemma SignalsStayHome(s: State, id: Identity, act: Act)
    requires Reachable(s) && Enabled(s, Sup(id, act)) && SendsSignal(act)
    ensures Exact(s, id) && id.group == id.pid && id.pid in Reached(s, id)
    ensures forall q :: q in Reached(s, id) <==> q in s.table && s.table[q].origin == id
    ensures act == Kill ==>
      forall q :: q in s.table ==>
        Apply(s, Sup(id, act)).table[q] == if q in Reached(s, id) then s.table[q].(doomed := true) else s.table[q]
  {
    InvReachable(s);
  }

  /** A launcher signals only the number of its own unreaped child: no record is loaded when it does, and the
      number belongs to that very child or to nobody, whatever happened to it since the fork. */
  lemma LaunchersSignalOnlyTheirChild(s: State, m: Move, q: Pid)
    requires Reachable(s) && MoveReady(s, m) && q in Signalled(s, By(m))
    ensures s.launcher.Spawned? && q == s.launcher.id.pid
    ensures q !in s.table || Exact(s, s.launcher.id)
    ensures s.launcher.id in s.sups && !s.sups[s.launcher.id].committed && !OwnsRecord(s, s.launcher.id)
  {
    InvReachable(s);
  }

  /** So over every run no signal of any program reaches a process that it did not start. */
  lemma SignalsReachOnlyOwnProcesses(s: State, e: Event, q: Pid)
    requires Reachable(s) && Enabled(s, e) && q in Signalled(s, e) && q in s.table
    ensures !e.Host? && s.table[q].origin in s.sups
    ensures s.table[q].origin == if e.By? then s.launcher.id else e.id
  {
    InvReachable(s);
    if e.By? {
      LaunchersSignalOnlyTheirChild(s, e.m, q);
    } else {
      SignalsStayHome(s, e.id, e.act);
    }
  }

  /** What a supervisor leaves behind when it ends without killing its group, no program ever signals. */
  lemma OrphansAreNeverSignalled(s: State, e: Event, id: Identity, q: Pid)
    requires Reachable(s) && Enabled(s, e) && id in s.sups && !Exact(s, id)
    requires q in s.table && s.table[q].origin == id
    ensures q !in Signalled(s, e)
  {
    if q in Signalled(s, e) {
      SignalsReachOnlyOwnProcesses(s, e, q);
      if e.By? {
        LaunchersSignalOnlyTheirChild(s, e.m, q);
      }
    }
  }

  // ---------------------------------------------------------------- what shutdown leaves behind

  /** After a graceful answer, nothing of the group is alive when the record goes. That nobody joins the group
      once it was seen empty is an assumption about the host: a descendant that left could use `setpgid` to
      come back. */
  lemma GracefulLeavesNobody(s: State)
    requires Reachable(s) && s.launcher.Removing? && s.launcher.why == Stopped(Graceful)
    ensures NoMember(s, s.launcher.r.id) && !Exact(s, s.launcher.r.id)
  {
    InvReachable(s);
    SealedRemovalIsClean(s);
  }

  /** The same of any stop whose group was sealed, under the same assumption. */
  lemma SealedRemovalIsClean(s: State)
    requires Inv(s) && s.launcher.Removing? && s.launcher.why.Stopped? && Sealed(s, s.launcher.r.id)
    ensures NoMember(s, s.launcher.r.id)
  {
    var id := s.launcher.r.id;
    assert id.pid in s.table && s.table[id.pid].origin == id ==> Exact(s, id);
  }

  lemma {:induction false} SealedRun(s: State, es: seq<Event>, id: Identity)
    requires Inv(s) && Runs(s, es) && Sealed(s, id)
    ensures Inv(After(s, es)) && Sealed(After(s, es), id)
    decreases |es|
  {
    if es != [] {
      SealedStays(s, es[0], id);
      InvStep(s, es[0]);
      SealedRun(Apply(s, es[0]), es[1..], id);
    }
  }

  /** However the run goes on, the record of a forced stop goes only when its group is gone. */
  ghost predicate AlwaysClean(s: State, r: Record) {
    forall es: seq<Event> ::
      Runs(s, es) && After(s, es).launcher == Removing(r, Stopped(Forced), Stop) ==> NoMember(After(s, es), r.id)
  }

  /** After a forced answer and the leader's death, the wait is conclusive exactly when the leader got
      to kill its group first. Otherwise a member can fork between the listing and the checks. */
  lemma ForcedIsCleanExactlyWhenSealed(s: State, r: Record)
    requires Reachable(s) && s.launcher == Waiting(r, Forced) && !Exact(s, r.id)
    ensures AlwaysClean(s, r) <==> Sealed(s, r.id)
  {
    InvReachable(s);
    if Sealed(s, r.id) {
      forall es: seq<Event> | Runs(s, es) && After(s, es).launcher == Removing(r, Stopped(Forced), Stop)
        ensures NoMember(After(s, es), r.id)
      {
        SealedRun(s, es, r.id);
        SealedRemovalIsClean(After(s, es));
      }
    } else {
      var es := ForkRace(s, r);
    }
  }

  /** The race, from any such state with an unkilled member. */
  lemma ForkRace(s: State, r: Record) returns (es: seq<Event>)
    requires Inv(s) && s.launcher == Waiting(r, Forced) && !Exact(s, r.id) && !Sealed(s, r.id)
    ensures Runs(s, es) && After(s, es).launcher == Removing(r, Stopped(Forced), Stop)
    ensures !NoMember(After(s, es), r.id)
  {
    var m :| m in s.table && m != r.id.pid && s.table[m].origin == r.id && !s.table[m].doomed;
    var listed := Enumerate(s.table.Keys);
    var s1 := MoveApply(s, ListMembers(listed));
    assert s1 == s.(launcher := Checking(r, Forced, listed));
    var child := FreshNumber(s1);
    MembersFork(s, s1, r.id, m, child);
    var s2 := HostApply(s1, Fork(m, child, 0));
    assert s2.launcher == s1.launcher;
    var rest := ChecksPass(s2, r, listed, child);
    RunsTwice(s, By(ListMembers(listed)), Host(Fork(m, child, 0)), rest);
    es := [By(ListMembers(listed)), Host(Fork(m, child, 0))] + rest;
  }

  /** A member that is not the leader is no supervisor, so that it may fork; its child is a member. */
  lemma MembersFork(s: State, t: State, id: Identity, m: Pid, child: Pid)
    requires KernelOk(s) && t.table == s.table && t.sups == s.sups && FreshPid(t, child, 0)
    requires m in s.table && m != id.pid && s.table[m].origin == id && !s.table[m].doomed
    ensures HostReady(t, Fork(m, child, 0)) && child in HostApply(t, Fork(m, child, 0)).table
    ensures HostApply(t, Fork(m, child, 0)).table[child].origin == id
  {
    assert !IsSupervisor(s, m);
  }

  lemma RunsTwice(s: State, d: Event, e: Event, es: seq<Event>)
    requires Enabled(s, d) && Enabled(Apply(s, d), e) && Runs(Apply(Apply(s, d), e), es)
    ensures Runs(s, [d, e] + es) && After(s, [d, e] + es) == After(Apply(Apply(s, d), e), es)
  {
    var all := [d, e] + es;
    assert all[1..] == [e] + es && all[1..][1..] == es;
  }

  lemma FreshNumber(s: State) returns (pid: Pid)
    requires !s.launcher.Spawned?
    ensures FreshPid(s, pid, 0)
  {
    pid := Bound(s.table.Keys + Groups(s) + Numbers(s.used));
    assert (pid, 0) in s.used ==> pid in Numbers(s.used);
    assert forall q :: q in s.table ==> s.table[q].group in Groups(s);
  }

  /** Every listed process may end just before it is looked at; a process not listed is not looked at. */
  lemma {:induction false} ChecksPass(s: State, r: Record, rest: seq<Pid>, child: Pid) returns (es: seq<Event>)
    requires s.launcher == Checking(r, Forced, rest) && child !in rest
    requires child in s.table && s.table[child].origin == r.id
    ensures Runs(s, es) && After(s, es).launcher == Removing(r, Stopped(Forced), Stop)
    ensures child in After(s, es).table && After(s, es).table[child].origin == r.id
    decreases |rest|
  {
    if rest == [] {
      es := [By(CheckDone)];
      assert es[1..] == [];
    } else {
      var s1 := if rest[0] in s.table then HostApply(s, Exit(rest[0])) else s;
      var tail := ChecksPass(MoveApply(s1, CheckMember), r, rest[1..], child);
      var fromHere := [By(CheckMember)] + tail;
      assert fromHere[1..] == tail;
      if rest[0] in s.table {
        es := [Host(Exit(rest[0]))] + fromHere;
        assert es[1..] == fromHere;
      } else {
        es := fromHere;
      }
    }
  }

  ghost function Groups(s: State): set<nat> {
    set q | q in s.table :: s.table[q].group
  }

  ghost function Numbers(used: set<(Pid, nat)>): set<nat> {
    set u | u in used :: u.0
  }

  /** A number outside a finite set. */
  ghost function Bound(ns: set<nat>): (b: nat)
    ensures forall n :: n in ns ==> n < b
  {
    if ns == {} then 0
    else
      var n :| n in ns;
      var rest := Bound(ns - {n});
      assert forall k :: k in ns ==> k == n || k in ns - {n};
      if n < rest then rest else n + 1
  }

  ghost function Enumerate(ns: set<nat>): (q: seq<nat>)
    ensures forall n :: n in q <==> n in ns
  {
    if ns == {} then []
    else
      var n :| n in ns;
      var rest := Enumerate(ns - {n});
      assert forall k :: k in ns <==> k == n || k in ns - {n};
      [n] + rest
  }
}
