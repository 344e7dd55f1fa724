/**
 The agent's worker loop. A script fixes everything the loop does not decide, a run leaves a trace of
 timed events, and the theorems hold for the trace of every script.
 */
module Worker {
  import opened Values

  // ---------------------------------------------------------------- what the environment does

  /** A step that took some time and then failed, or gave a value. */
  datatype Took<T> = Took(time: nat, value: Option<T>)

  datatype Unit = Unit

  datatype PollReply =
    | Lease
    | Drain
    | NoWork(retryAfter: nat)
    | Cancelled
    | PollFailed

  datatype JobResult =
    | Completed(drain: bool)
    | LostToShutdown
    | Fenced
    | Expired
    | JobFailed

  /** One turn of the loop as the environment answers it. */
  datatype Turn = Turn(
    capacity: Took<bool>,
    pollSnapshot: Took<Unit>,
    reply: PollReply, replyTime: nat,
    overslept: nat, sleepWins: bool,
    jobSnapshot: Took<Unit>,
    job: JobResult, jobTime: nat,
    cleanup: Took<Unit>)

  /** How long each step takes, what the coordinator, the executor and the disk answer, when shutdown
      is requested, and how many rounds pass before the observation ends. */
  datatype Script = Script(
    orphans: Took<Unit>, attempts: Took<Unit>, registration: Took<Unit>,
    built: Took<Unit>,
    shutdownAt: Option<nat>,
    diskCheckInterval: nat,
    turns: seq<Turn>)

  // ---------------------------------------------------------------- what a run shows

  datatype Event =
    | OrphansRemoved(at: nat)
    | AttemptsRemoved(at: nat)
    | Registered(at: nat)
    | CapacityChecked(at: nat, room: Option<bool>)
    | PollBegan(at: nat, accept: bool)
    | Leased(at: nat)
    | Drained(at: nat)
    | FoundNothing(at: nat, retryAfter: nat)
    | Woke(at: nat, overslept: nat)
    | JobEnded(at: nat, result: JobResult)

  datatype Verdict = StillRunning | Stopped | Failed

  datatype Observed = Observed(trace: seq<Event>, verdict: Verdict)

  predicate IsCancelled(shutdownAt: Option<nat>, now: nat) {
    shutdownAt.Some? && shutdownAt.value <= now
  }

  /** The delay before the next capacity check: the least one that honours the coordinator's retry
      floor and, for an agent without room, the disk-check interval since the admission began. */
  function RepollDelay(accept: bool, retryAfter: nat, interval: nat, elapsed: nat): (delay: nat)
    ensures delay >= retryAfter && (!accept ==> elapsed + delay >= interval)
    ensures delay == retryAfter || (!accept && elapsed + delay == interval)
  {
    if accept then retryAfter
    else
      var left := if interval > elapsed then interval - elapsed else 0;
      if retryAfter > left then retryAfter else left
  }

  // ---------------------------------------------------------------- the loop as a function

  /** What one turn shows, and the time at which the next one starts if there is one. */
  datatype Outcome = Outcome(events: seq<Event>, verdict: Verdict, now: nat)

  function JobTurn(now: nat, turn: Turn): (o: Outcome) {
    var ended := JobEnded(now, turn.job);
    if turn.job.Completed? then Outcome([ended], if turn.job.drain then Stopped else StillRunning, now)
    else if turn.job.LostToShutdown? then Outcome([ended], Stopped, now)
    else if turn.job.JobFailed? then Outcome([ended], Failed, now)
    else
      var done := now + turn.cleanup.time;
      if turn.cleanup.value.None? then Outcome([ended], Failed, done)
      else Outcome([ended, AttemptsRemoved(done)], StillRunning, done)
  }

  function LeaseTurn(now: nat, turn: Turn): (o: Outcome) {
    var ready := now + turn.jobSnapshot.time;
    if turn.jobSnapshot.value.None? then Outcome([Leased(now)], Failed, ready)
    else
      var o := JobTurn(ready + turn.jobTime, turn);
      Outcome([Leased(now)] + o.events, o.verdict, o.now)
  }

  function IdleWait(shutdownAt: Option<nat>, interval: nat, admission: nat, accept: bool, now: nat,
      turn: Turn): (o: Outcome)
    requires admission <= now && turn.reply.NoWork?
  {
    var nothing := FoundNothing(now, turn.reply.retryAfter);
    var woke := now + RepollDelay(accept, turn.reply.retryAfter, interval, now - admission) + turn.overslept;
    if IsCancelled(shutdownAt, woke) && !turn.sleepWins then Outcome([nothing], Stopped, woke)
    else Outcome([nothing, Woke(woke, turn.overslept)], StillRunning, woke)
  }

  function ReplyTurn(shutdownAt: Option<nat>, interval: nat, admission: nat, accept: bool, now: nat,
      turn: Turn): (o: Outcome)
    requires admission <= now
  {
    if turn.reply.Lease? then LeaseTurn(now, turn)
    else if turn.reply.Drain? then Outcome([Drained(now)], Stopped, now)
    else if turn.reply.NoWork? then IdleWait(shutdownAt, interval, admission, accept, now, turn)
    else Outcome([], if turn.reply.Cancelled? && IsCancelled(shutdownAt, now) then Stopped else Failed, now)
  }

  function Polled(now: nat, polling: nat, accept: bool, r: Outcome): Outcome {
    Outcome([CapacityChecked(now, Some(accept)), PollBegan(polling, accept)] + r.events, r.verdict, r.now)
  }

  /** The turn gets as far as polling. */
  predicate Polls(shutdownAt: Option<nat>, now: nat, turn: Turn) {
    turn.capacity.value.Some? && !IsCancelled(shutdownAt, now + turn.capacity.time) && turn.pollSnapshot.value.Some?
  }

  function OneTurn(shutdownAt: Option<nat>, interval: nat, admission: nat, turn: Turn): (o: Outcome) {
    var now := admission + turn.capacity.time;
    if Polls(shutdownAt, admission, turn) then
      var accept, polling := turn.capacity.value.value, now + turn.pollSnapshot.time;
      Polled(admission, polling, accept,
             ReplyTurn(shutdownAt, interval, admission, accept, polling + turn.replyTime, turn))
    else
      var stopped := turn.capacity.value.Some? && IsCancelled(shutdownAt, now);
      Outcome([CapacityChecked(admission, turn.capacity.value)], if stopped then Stopped else Failed,
              if turn.capacity.value.None? || stopped then now else now + turn.pollSnapshot.time)
  }

  function Turns(shutdownAt: Option<nat>, interval: nat, now: nat, turns: seq<Turn>): (o: Observed)
    decreases |turns|
  {
    if turns == [] then Observed([], StillRunning)
    else
      var first := OneTurn(shutdownAt, interval, now, turns[0]);
      if first.verdict != StillRunning then Observed(first.events, first.verdict)
      else
        var rest := Turns(shutdownAt, interval, first.now, turns[1..]);
        Observed(first.events + rest.trace, rest.verdict)
  }

  predicate Preparation(e: Event) {
    e.OrphansRemoved? || e.AttemptsRemoved? || e.Registered?
  }

  /** Every step before the loop succeeds. */
  predicate Starts(script: Script) {
    script.orphans.value.Some? && script.attempts.value.Some? && script.registration.value.Some?
          && script.built.value.Some?
  }

  /** What the worker has done before its loop, or before the step that failed. */
  function Ready(script: Script): (t: seq<Event>)
    ensures forall i :: 0 <= i < |t| ==> Preparation(t[i])
    ensures Starts(script) ==> |t| == 3 && t[0].OrphansRemoved? && t[1].AttemptsRemoved? && t[2].Registered?
  {
    var a := script.orphans.time;
    var b := a + script.attempts.time;
    if script.orphans.value.None? then []
    else if script.attempts.value.None? then [OrphansRemoved(a)]
    else if script.registration.value.None? then [OrphansRemoved(a), AttemptsRemoved(b)]
    else [OrphansRemoved(a), AttemptsRemoved(b), Registered(b + script.registration.time)]
  }

  function LoopStart(script: Script): nat {
    script.orphans.time + script.attempts.time + script.registration.time + script.built.time
  }

  function Run(script: Script): (o: Observed) {
    if !Starts(script) then Observed(Ready(script), Failed)
    else
      var o := Turns(script.shutdownAt, script.diskCheckInterval, LoopStart(script), script.turns);
      Observed(Ready(script) + o.trace, o.verdict)
  }

  // ---------------------------------------------------------------- the loop as it is written

  predicate IsLost(job: JobResult) {
    job.Fenced? || job.Expired?
  }

  /** The daemon's policy on a finished job: it goes on after a completed job without a drain, or after a lost lease
      whose state it could remove; it stops on a drain or at shutdown; anything else is an error. Retained state
      is removed exactly for a lost lease, and before going on. */
  method HandleLifecycleResult(turn: Turn, now: nat) returns (events: seq<Event>, verdict: Verdict, done: nat)
    ensures verdict == StillRunning <==>
            turn.job == Completed(false) || (IsLost(turn.job) && turn.cleanup.value.Some?)
    ensures verdict == Stopped <==> turn.job == Completed(true) || turn.job.LostToShutdown?
    ensures events == [JobEnded(now, turn.job)] +
            if IsLost(turn.job) && verdict == StillRunning then [AttemptsRemoved(done)] else []
    ensures done == now + if IsLost(turn.job) then turn.cleanup.time else 0
    ensures JobTurn(now, turn) == Outcome(events, verdict, done)
  {
    events, done := [JobEnded(now, turn.job)], now;
    if turn.job.Completed? && turn.job.drain {
      verdict := Stopped;
    } else if turn.job.Completed? {
      verdict := StillRunning;
    } else if turn.job.LostToShutdown? {
      verdict := Stopped;
    } else if turn.job.Fenced? || turn.job.Expired? {
      done := done + turn.cleanup.time;
      if turn.cleanup.value.None? {
        verdict := Failed;
      } else {
        events := events + [AttemptsRemoved(done)];
        verdict := StillRunning;
      }
    } else {
      verdict := Failed;
    }
  }

  /** The part of a turn that follows the coordinator's answer. */
  method HandleReply(script: Script, admission: nat, accept: bool, start: nat, turn: Turn)
    returns (events: seq<Event>, verdict: Verdict, now: nat)
    requires admission <= start
    ensures ReplyTurn(script.shutdownAt, script.diskCheckInterval, admission, accept, start, turn) ==
            Outcome(events, verdict, now)
  {
    now := start;
    if turn.reply.Drain? {
      return [Drained(now)], Stopped, now;
    } else if turn.reply.NoWork? {
      events := [FoundNothing(now, turn.reply.retryAfter)];
      var delay := RepollDelay(accept, turn.reply.retryAfter, script.diskCheckInterval, now - admission);
      now := now + delay + turn.overslept;
      if IsCancelled(script.shutdownAt, now) && !turn.sleepWins {
        return events, Stopped, now;
      }
      return events + [Woke(now, turn.overslept)], StillRunning, now;
    } else if turn.reply.Cancelled? && IsCancelled(script.shutdownAt, now) {
      return [], Stopped, now;
    } else if !turn.reply.Lease? {
      return [], Failed, now;
    }
    events := [Leased(now)];
    now := now + turn.jobSnapshot.time;
    if turn.jobSnapshot.value.None? {
      return events, Failed, now;
    }
    var more;
    more, verdict, now := HandleLifecycleResult(turn, now + turn.jobTime);
    events := events + more;
  }

  /** One turn: check the disk, stop if shutdown was requested, poll, and handle the answer. */
  method TakeTurn(script: Script, admission: nat, turn: Turn) returns (events: seq<Event>, verdict: Verdict, now: nat)
    ensures OneTurn(script.shutdownAt, script.diskCheckInterval, admission, turn) == Outcome(events, verdict, now)
  {
    events, now := [CapacityChecked(admission, turn.capacity.value)], admission + turn.capacity.time;
    if turn.capacity.value.None? {
      return events, Failed, now;
    }
    var accept := turn.capacity.value.value;
    if IsCancelled(script.shutdownAt, now) {
      return events, Stopped, now;
    }
    now := now + turn.pollSnapshot.time;
    if turn.pollSnapshot.value.None? {
      return events, Failed, now;
    }
    events := events + [PollBegan(now, accept)];
    var more;
    more, verdict, now := HandleReply(script, admission, accept, now + turn.replyTime, turn);
    events := events + more;
  }

  /** The loop: turn after turn until one of them ends the worker. */
  method ServeTurns(script: Script, start: nat) returns (trace: seq<Event>, verdict: Verdict)
    ensures Observed(trace, verdict) == Turns(script.shutdownAt, script.diskCheckInterval, start, script.turns)
  {
    var now: nat := start;
    trace := [];
    for i := 0 to |script.turns|
      invariant var rest := Turns(script.shutdownAt, script.diskCheckInterval, now, script.turns[i..]);
                Turns(script.shutdownAt, script.diskCheckInterval, start, script.turns) ==
                      Observed(trace + rest.trace, rest.verdict)
    {
      TurnsStep(script.shutdownAt, script.diskCheckInterval, now, script.turns, i, trace);
      var events, directive, done := TakeTurn(script, now, script.turns[i]);
      trace, now := trace + events, done;
      if directive != StillRunning {
        return trace, directive;
      }
    }
    return trace, StillRunning;
  }

  /** Recovers and registers, in that order, up to the first step that fails. */
  method Recover(script: Script) returns (trace: seq<Event>, now: nat, ok: bool)
    ensures ok <==> Starts(script)
    ensures trace == Ready(script) && (ok ==> now == LoopStart(script))
  {
    trace, now, ok := [], script.orphans.time, script.orphans.value.Some?;
    if ok {
      trace, now, ok := trace + [OrphansRemoved(now)], now + script.attempts.time, script.attempts.value.Some?;
    }
    if ok {
      trace, now, ok := trace + [AttemptsRemoved(now)], now + script.registration.time, script.registration.value.Some?;
    }
    if ok {
      trace, now, ok := trace + [Registered(now)], now + script.built.time, script.built.value.Some?;
    }
  }

  /** Recover, register, then serve. */
  method RunLoaded(script: Script) returns (trace: seq<Event>, verdict: Verdict)
    ensures Observed(trace, verdict) == Run(script)
  {
    var now, ok, served;
    trace, now, ok := Recover(script);
    if ok {
      served, verdict := ServeTurns(script, now);
      trace := trace + served;
    } else {
      verdict := Failed;
    }
  }

  lemma TurnsStep(shutdownAt: Option<nat>, interval: nat, now: nat, turns: seq<Turn>, i: nat, before: seq<Event>)
    requires i < |turns|
    ensures var o := OneTurn(shutdownAt, interval, now, turns[i]);
            var all := Turns(shutdownAt, interval, now, turns[i..]);
            var rest := Turns(shutdownAt, interval, o.now, turns[i + 1..]);
            && (o.verdict != StillRunning ==> all == Observed(o.events, o.verdict))
            && (o.verdict == StillRunning ==>
                  all.verdict == rest.verdict && before + all.trace == (before + o.events) + rest.trace)
  {
    var from := turns[i..];
    assert from[0] == turns[i] && from[1..] == turns[i + 1..];
    var o, rest := OneTurn(shutdownAt, interval, now, turns[i]), Turns(shutdownAt, interval, now, from);
    if o.verdict == StillRunning {
      assert rest.trace == o.events + Turns(shutdownAt, interval, o.now, from[1..]).trace;
    }
  }

  // ---------------------------------------------------------------- what every run keeps

  /** Polling starts only after orphan cleanup, attempt cleanup and registration, in that order. */
  ghost predicate PollsPrepared(t: seq<Event>) {
    forall i :: 0 <= i < |t| && t[i].PollBegan? ==>
      i > 3 && t[0].OrphansRemoved? && t[1].AttemptsRemoved? && t[2].Registered?
  }

  /** Leases taken and not yet given up. */
  function Held(t: seq<Event>): int {
    if t == [] then 0
    else Held(t[..|t| - 1]) + (if t[|t| - 1].Leased? then 1 else if t[|t| - 1].JobEnded? then -1 else 0)
  }

  /** At most one lease is held at any time, and none while polling. */
  ghost predicate OneLease(t: seq<Event>) {
    && (forall n :: 0 <= n <= |t| ==> 0 <= Held(t[..n]) <= 1)
    && (forall n :: 0 <= n < |t| && t[n].PollBegan? ==> Held(t[..n]) == 0)
  }

  predicate LeaseLost(e: Event) {
    e.JobEnded? && IsLost(e.result)
  }

  /** The retained state of a lost lease is removed before the next poll. */
  ghost predicate LostStateRemoved(t: seq<Event>) {
    forall i, j :: 0 <= i < j < |t| && LeaseLost(t[i]) && t[j].PollBegan? ==>
      exists k :: i < k < j && t[k].AttemptsRemoved?
  }

  predicate Final(e: Event) {
    e.Drained? || (e.JobEnded? && (e.result == Completed(true) || e.result.LostToShutdown? || e.result.JobFailed?))
  }

  /** Nothing at all follows a drain or a worker-scoped end. */
  ghost predicate DrainIsLast(t: seq<Event>) {
    forall i :: 0 <= i < |t| && Final(t[i]) ==> i == |t| - 1
  }

  /** Of any two polls the earlier one began before shutdown was requested. */
  ghost predicate OnePollAfterShutdown(t: seq<Event>, shutdownAt: Option<nat>) {
    forall i, j :: 0 <= i < j < |t| && t[i].PollBegan? && t[j].PollBegan? ==> !IsCancelled(shutdownAt, t[i].at)
  }

  /** A poll reports the capacity that was just checked. */
  ghost predicate PollReports(t: seq<Event>, i: nat)
    requires i < |t|
  {
    t[i].PollBegan? ==> i > 0 && t[i - 1].CapacityChecked? && t[i - 1].room == Some(t[i].accept)
  }

  /** A turn that starts at `i` and finds no work. */
  ghost predicate IdleTurn(t: seq<Event>, i: nat) {
    i + 2 < |t| && t[i].CapacityChecked? && t[i + 2].FoundNothing?
  }

  /** The first moment that honours both the retry floor and, for an agent without room, the disk-check
      interval since the last check began. */
  function EarliestCheck(check: Event, nothing: Event, interval: nat): int
    requires check.CapacityChecked? && nothing.FoundNothing?
  {
    Later(nothing.at + nothing.retryAfter, if check.room == Some(false) then check.at + interval else 0)
  }

  /** After a turn without work a later check starts no sooner than the worker wakes, and the worker wakes at
      that first moment, but for the time the timer overslept. */
  ghost predicate Spaced(t: seq<Event>, i: nat, j: nat, interval: nat)
    requires IdleTurn(t, i) && j < |t|
  {
    i + 2 < j && t[j].CapacityChecked? ==>
      && i + 3 < j && t[i + 3].Woke? && t[j].at >= t[i + 3].at
      && t[i + 3].at - t[i + 3].overslept == EarliestCheck(t[i], t[i + 2], interval)
  }

  ghost predicate ChecksSpaced(t: seq<Event>, interval: nat) {
    && (forall i :: 0 <= i < |t| ==> PollReports(t, i))
    && (forall i, j :: 0 <= i && 0 <= j < |t| && IdleTurn(t, i) ==> Spaced(t, i, j, interval))
  }

  function Later(a: int, b: int): int {
    if a >= b then a else b
  }

  ghost predicate From(t: seq<Event>, now: nat) {
    forall i :: 0 <= i < |t| ==> t[i].at >= now
  }

  /** What can follow a poll within its turn. */
  ghost predicate ReplyShape(e: seq<Event>, verdict: Verdict, interval: nat, check: Event)
    requires check.CapacityChecked?
  {
    || (|e| == 0 && verdict != StillRunning)
    || (|e| == 1 && (e[0].Leased? || e[0].Drained? || e[0].FoundNothing?) && verdict != StillRunning)
    || (|e| == 2 && e[0].Leased? && e[1].JobEnded? && (LeaseLost(e[1]) || Final(e[1]) ==> verdict != StillRunning))
    || (|e| == 3 && e[0].Leased? && LeaseLost(e[1]) && e[2].AttemptsRemoved?)
    || (|e| == 2 && e[0].FoundNothing? && e[1].Woke?
        && e[1].at - e[1].overslept == EarliestCheck(check, e[0], interval))
  }

  ghost predicate Within(t: seq<Event>, low: nat, high: nat) {
    forall i :: 0 <= i < |t| ==> low <= t[i].at <= high
  }

  /** At most one poll a turn, right after the capacity check and only while shutdown is not requested. */
  ghost predicate TurnShape(t: seq<Event>, verdict: Verdict, shutdownAt: Option<nat>, interval: nat) {
    && |t| >= 1 && t[0].CapacityChecked?
    && (|t| == 1 ==> verdict != StillRunning)
    && (|t| > 1 ==>
          && !IsCancelled(shutdownAt, t[0].at) && t[1].PollBegan? && t[0].room == Some(t[1].accept)
          && ReplyShape(t[2..], verdict, interval, t[0]))
  }

  ghost predicate Shaped(o: Outcome, shutdownAt: Option<nat>, interval: nat, now: nat) {
    && TurnShape(o.events, o.verdict, shutdownAt, interval)
    && o.events[0].at == now && Within(o.events, now, o.now) && now <= o.now
  }

  /** What is known of the rest of a polled turn. */
  ghost predicate GoodReply(r: Outcome, interval: nat, now: nat, accept: bool, start: nat) {
    && ReplyShape(r.events, r.verdict, interval, CapacityChecked(now, Some(accept)))
    && Within(r.events, start, r.now) && start <= r.now
  }

  lemma PolledShape(r: Outcome, now: nat, polling: nat, start: nat, accept: bool, shutdownAt: Option<nat>,
      interval: nat)
    requires GoodReply(r, interval, now, accept, start)
    requires now <= polling <= start && !IsCancelled(shutdownAt, now)
    ensures Shaped(Polled(now, polling, accept, r), shutdownAt, interval, now)
  {
    assert Polled(now, polling, accept, r).events[2..] == r.events;
  }

  lemma LeaseShaped(interval: nat, check: Event, now: nat, turn: Turn, shutdownAt: Option<nat>)
    requires check.CapacityChecked?
    ensures var r := LeaseTurn(now, turn);
            && ReplyShape(r.events, r.verdict, interval, check) && Within(r.events, now, r.now) && now <= r.now
            && ReplyForCause(r, shutdownAt)
  {
  }

  lemma IdleShaped(shutdownAt: Option<nat>, interval: nat, admission: nat, accept: bool, now: nat, turn: Turn)
    requires admission <= now && turn.reply.NoWork?
    ensures var r := IdleWait(shutdownAt, interval, admission, accept, now, turn);
            GoodReply(r, interval, admission, accept, now) && ReplyForCause(r, shutdownAt)
  {
  }

  /** Whatever the answer to a poll, the turn goes on in one of the ways it can, */
  lemma ReplyShaped(shutdownAt: Option<nat>, interval: nat, admission: nat, accept: bool, now: nat, turn: Turn)
    returns (r: Outcome)
    requires admission <= now
    ensures r == ReplyTurn(shutdownAt, interval, admission, accept, now, turn)
    ensures GoodReply(r, interval, admission, accept, now) && ReplyForCause(r, shutdownAt)
  {
    r := ReplyTurn(shutdownAt, interval, admission, accept, now, turn);
    if turn.reply.Lease? {
      LeaseShaped(interval, CapacityChecked(admission, Some(accept)), now, turn, shutdownAt);
    } else if turn.reply.NoWork? {
      IdleShaped(shutdownAt, interval, admission, accept, now, turn);
    }
  }

  /** and every turn is shaped like one, and ends the worker only for a cause. */
  lemma TurnShaped(shutdownAt: Option<nat>, interval: nat, admission: nat, turn: Turn) returns (o: Outcome)
    ensures o == OneTurn(shutdownAt, interval, admission, turn)
    ensures Shaped(o, shutdownAt, interval, admission) && EndsForCause(o.events, o.verdict, shutdownAt)
  {
    if Polls(shutdownAt, admission, turn) {
      var accept, polling := turn.capacity.value.value, admission + turn.capacity.time + turn.pollSnapshot.time;
      var start := polling + turn.replyTime;
      var r := ReplyShaped(shutdownAt, interval, admission, accept, start, turn);
      o := PolledTurnShaped(r, admission, polling, start, accept, shutdownAt, interval);
    } else {
      o := OneTurn(shutdownAt, interval, admission, turn);
      UnpolledTurnShaped(shutdownAt, interval, admission, turn);
    }
  }

  lemma UnpolledTurnShaped(shutdownAt: Option<nat>, interval: nat, admission: nat, turn: Turn)
    requires !Polls(shutdownAt, admission, turn)
    ensures var o := OneTurn(shutdownAt, interval, admission, turn);
            Shaped(o, shutdownAt, interval, admission) && EndsForCause(o.events, o.verdict, shutdownAt)
  {
  }

  lemma PolledTurnShaped(r: Outcome, now: nat, polling: nat, start: nat, accept: bool, shutdownAt: Option<nat>,
      interval: nat) returns (o: Outcome)
    requires GoodReply(r, interval, now, accept, start) && ReplyForCause(r, shutdownAt)
    requires now <= polling <= start && !IsCancelled(shutdownAt, now)
    ensures o == Polled(now, polling, accept, r)
    ensures Shaped(o, shutdownAt, interval, now) && EndsForCause(o.events, o.verdict, shutdownAt)
  {
    o := Polled(now, polling, accept, r);
    PolledShape(r, now, polling, start, accept, shutdownAt, interval);
    PolledEnds(r, now, polling, accept, shutdownAt);
  }

  // ---------------------------------------------------------------- one more turn at the front

  lemma {:induction false} HeldAppend(a: seq<Event>, b: seq<Event>)
    ensures Held(a + b) == Held(a) + Held(b)
    decreases |b|
  {
    if b == [] {
      assert a + b == a;
    } else {
      HeldAppend(a, b[..|b| - 1]);
      assert (a + b)[..|a + b| - 1] == a + b[..|b| - 1];
    }
  }

  function Weight(e: Event): int {
    if e.Leased? then 1 else if e.JobEnded? then -1 else 0
  }

  lemma HeldNext(t: seq<Event>, n: nat)
    requires n < |t|
    ensures Held(t[..n + 1]) == Held(t[..n]) + Weight(t[n])
  {
    assert t[..n + 1][..n] == t[..n];
  }

  /** Within a turn the lease comes third and its end fourth. */
  lemma HeldInTurn(t: seq<Event>, verdict: Verdict, shutdownAt: Option<nat>, interval: nat, n: nat)
    requires TurnShape(t, verdict, shutdownAt, interval) && n <= |t|
    ensures Held(t[..n]) == if |t| >= 3 && t[2].Leased? && n == 3 then 1 else 0
  {
    if n > 0 {
      HeldInTurn(t, verdict, shutdownAt, interval, n - 1);
      HeldNext(t, n - 1);
      assert |t| > 1 ==> |t| <= 5 && forall k :: 2 <= k < |t| ==> t[k] == t[2..][k - 2];
    }
  }

  lemma OneLeaseAppend(a: seq<Event>, b: seq<Event>, shutdownAt: Option<nat>, interval: nat)
    requires TurnShape(a, StillRunning, shutdownAt, interval) && OneLease(b)
    ensures OneLease(a + b)
  {
    var t := a + b;
    HeldInTurn(a, StillRunning, shutdownAt, interval, |a|);
    assert a[..|a|] == a && (|a| > 2 ==> a[2] == a[2..][0]);
    forall n | 0 <= n <= |t|
      ensures 0 <= Held(t[..n]) <= 1 && (n < |t| && t[n].PollBegan? ==> Held(t[..n]) == 0)
    {
      if n < |a| {
        assert t[..n] == a[..n];
        HeldInTurn(a, StillRunning, shutdownAt, interval, n);
        assert n > 2 ==> a[n] == a[2..][n - 2];
      } else {
        assert t[..n] == a + b[..n - |a|];
        HeldAppend(a, b[..n - |a|]);
      }
    }
  }

  lemma OneLeaseTurn(a: seq<Event>, verdict: Verdict, shutdownAt: Option<nat>, interval: nat)
    requires TurnShape(a, verdict, shutdownAt, interval)
    ensures OneLease(a)
  {
    forall n | 0 <= n <= |a|
      ensures 0 <= Held(a[..n]) <= 1 && (n < |a| && a[n].PollBegan? ==> Held(a[..n]) == 0)
    {
      HeldInTurn(a, verdict, shutdownAt, interval, n);
      assert 2 < n < |a| ==> a[n] == a[2..][n - 2];
    }
  }

  /** A turn's events by position. */
  lemma TurnAt(a: seq<Event>, verdict: Verdict, shutdownAt: Option<nat>, interval: nat)
    requires TurnShape(a, verdict, shutdownAt, interval)
    ensures |a| <= 5
    ensures forall i :: 0 <= i < |a| ==> (a[i].PollBegan? <==> i == 1) && (a[i].CapacityChecked? <==> i == 0)
    ensures forall i :: 0 <= i < |a| && a[i].FoundNothing? ==> i == 2
    ensures forall i :: 0 <= i < |a| && a[i].JobEnded? ==> i == 3
    ensures forall i :: 0 <= i < |a| && Final(a[i]) ==> i == |a| - 1 && verdict != StillRunning
    ensures verdict == StillRunning ==> |a| >= 4
    ensures verdict == StillRunning && LeaseLost(a[3]) ==> |a| == 5 && a[4].AttemptsRemoved?
    ensures verdict == StillRunning && a[2].FoundNothing? ==>
      |a| == 4 && a[3].Woke? && a[3].at - a[3].overslept == EarliestCheck(a[0], a[2], interval)
  {
    assert forall i :: 2 <= i < |a| ==> a[i] == a[2..][i - 2];
  }

  lemma LostStateAppend(a: seq<Event>, b: seq<Event>, shutdownAt: Option<nat>, interval: nat)
    requires TurnShape(a, StillRunning, shutdownAt, interval) && LostStateRemoved(b)
    ensures LostStateRemoved(a + b)
  {
    var t := a + b;
    TurnAt(a, StillRunning, shutdownAt, interval);
    forall i, j | 0 <= i < j < |t| && LeaseLost(t[i]) && t[j].PollBegan?
      ensures exists k :: i < k < j && t[k].AttemptsRemoved?
    {
      if i >= |a| {
        var k :| i - |a| < k < j - |a| && b[k].AttemptsRemoved?;
        assert t[|a| + k] == b[k];
      } else {
        assert t[i] == a[i] && t[4] == a[4];
      }
    }
  }

  lemma DrainAppend(a: seq<Event>, b: seq<Event>, shutdownAt: Option<nat>, interval: nat)
    requires TurnShape(a, StillRunning, shutdownAt, interval) && DrainIsLast(b)
    ensures DrainIsLast(a + b)
  {
    TurnAt(a, StillRunning, shutdownAt, interval);
    var t := a + b;
    forall i | 0 <= i < |t| && Final(t[i]) ensures i == |t| - 1 {
      if i >= |a| {
        assert t[i] == b[i - |a|];
      }
    }
  }

  /** A poll from the loop head on means that shutdown was not yet requested at the head. */
  ghost predicate PollsOnlyIfOpen(t: seq<Event>, shutdownAt: Option<nat>, now: nat) {
    forall i :: 0 <= i < |t| && t[i].PollBegan? ==> !IsCancelled(shutdownAt, now)
  }

  lemma ShutdownAppend(a: seq<Event>, b: seq<Event>, shutdownAt: Option<nat>, interval: nat, now: nat)
    requires TurnShape(a, StillRunning, shutdownAt, interval) && Within(a, 0, now)
    requires OnePollAfterShutdown(b, shutdownAt) && PollsOnlyIfOpen(b, shutdownAt, now)
    ensures OnePollAfterShutdown(a + b, shutdownAt) && PollsOnlyIfOpen(a + b, shutdownAt, a[0].at)
  {
    TurnAt(a, StillRunning, shutdownAt, interval);
    var t := a + b;
    forall i, j | 0 <= i < j < |t| && t[i].PollBegan? && t[j].PollBegan? ensures !IsCancelled(shutdownAt, t[i].at) {
      assert j >= |a| && t[j] == b[j - |a|];
      assert t[i] == if i < |a| then a[i] else b[i - |a|];
    }
  }

  lemma SpacedAppend(a: seq<Event>, b: seq<Event>, shutdownAt: Option<nat>, interval: nat, now: nat)
    requires TurnShape(a, StillRunning, shutdownAt, interval) && Within(a, 0, now) && From(b, now)
    requires ChecksSpaced(b, interval)
    ensures ChecksSpaced(a + b, interval)
  {
    TurnAt(a, StillRunning, shutdownAt, interval);
    var t := a + b;
    forall i | 0 <= i < |t| ensures PollReports(t, i) {
      if i > |a| {
        ShiftPoll(a, b, i - |a|);
      } else if i == |a| {
        assert t[i] == b[0] && PollReports(b, 0);
      }
    }
    forall i, j | 0 <= i && 0 <= j < |t| && IdleTurn(t, i) ensures Spaced(t, i, j, interval) {
      if i >= |a| {
        ShiftSpaced(a, b, i - |a|, j, interval);
      } else if j >= |a| {
        assert t[j] == b[j - |a|] && t[3] == a[3] && t[2] == a[2];
      }
    }
  }

  lemma ShiftPoll(a: seq<Event>, b: seq<Event>, i: nat)
    requires i < |b| && PollReports(b, i)
    ensures PollReports(a + b, |a| + i)
  {
    var t := a + b;
    assert t[|a| + i] == b[i] && (i > 0 ==> t[|a| + i - 1] == b[i - 1]);
  }

  lemma ShiftSpaced(a: seq<Event>, b: seq<Event>, i: nat, j: nat, interval: nat)
    requires j < |a + b| && IdleTurn(a + b, |a| + i)
    requires forall i, j :: 0 <= i && 0 <= j < |b| && IdleTurn(b, i) ==> Spaced(b, i, j, interval)
    ensures Spaced(a + b, |a| + i, j, interval)
  {
    var t := a + b;
    assert t[|a| + i] == b[i] && t[|a| + i + 2] == b[i + 2];
    assert IdleTurn(b, i);
    if |a| + i + 2 < j {
      assert Spaced(b, i, j - |a|, interval);
      assert t[|a| + i + 3] == b[i + 3] && t[j] == b[j - |a|];
    }
  }

  /** What the part of a run from the loop head on keeps. */
  ghost predicate LoopKeeps(t: seq<Event>, shutdownAt: Option<nat>, interval: nat, now: nat) {
    && From(t, now) && OneLease(t) && LostStateRemoved(t) && DrainIsLast(t)
    && OnePollAfterShutdown(t, shutdownAt) && PollsOnlyIfOpen(t, shutdownAt, now) && ChecksSpaced(t, interval)
  }

  lemma TurnKeeps(a: seq<Event>, verdict: Verdict, shutdownAt: Option<nat>, interval: nat)
    requires TurnShape(a, verdict, shutdownAt, interval) && From(a, a[0].at)
    ensures LoopKeeps(a, shutdownAt, interval, a[0].at)
  {
    TurnAt(a, verdict, shutdownAt, interval);
    OneLeaseTurn(a, verdict, shutdownAt, interval);
  }

  lemma {:induction false} TurnsKeep(shutdownAt: Option<nat>, interval: nat, now: nat, turns: seq<Turn>)
    ensures LoopKeeps(Turns(shutdownAt, interval, now, turns).trace, shutdownAt, interval, now)
    decreases |turns|
  {
    if turns != [] {
      var o := TurnShaped(shutdownAt, interval, now, turns[0]);
      if o.verdict != StillRunning {
        TurnKeeps(o.events, o.verdict, shutdownAt, interval);
      } else {
        var rest := Turns(shutdownAt, interval, o.now, turns[1..]).trace;
        TurnsKeep(shutdownAt, interval, o.now, turns[1..]);
        OneLeaseAppend(o.events, rest, shutdownAt, interval);
        LostStateAppend(o.events, rest, shutdownAt, interval);
        DrainAppend(o.events, rest, shutdownAt, interval);
        ShutdownAppend(o.events, rest, shutdownAt, interval, o.now);
        SpacedAppend(o.events, rest, shutdownAt, interval, o.now);
      }
    }
  }

  // ---------------------------------------------------------------- every run

  lemma {:induction false} HeldPreparing(t: seq<Event>)
    requires forall i :: 0 <= i < |t| ==> Preparation(t[i])
    ensures Held(t) == 0
  {
    if t != [] {
      HeldPreparing(t[..|t| - 1]);
    }
  }

  lemma PreparedLeases(a: seq<Event>, b: seq<Event>)
    requires forall i :: 0 <= i < |a| ==> Preparation(a[i])
    requires OneLease(b)
    ensures OneLease(a + b)
  {
    var t := a + b;
    HeldPreparing(a);
    forall n | 0 <= n <= |t|
      ensures 0 <= Held(t[..n]) <= 1 && (n < |t| && t[n].PollBegan? ==> Held(t[..n]) == 0)
    {
      if n < |a| {
        assert t[..n] == a[..n];
        HeldPreparing(a[..n]);
      } else {
        assert t[..n] == a + b[..n - |a|];
        HeldAppend(a, b[..n - |a|]);
      }
    }
  }

  lemma PreparedOrder(a: seq<Event>, b: seq<Event>, shutdownAt: Option<nat>)
    requires forall i :: 0 <= i < |a| ==> Preparation(a[i])
    requires LostStateRemoved(b) && DrainIsLast(b) && OnePollAfterShutdown(b, shutdownAt)
    ensures LostStateRemoved(a + b) && DrainIsLast(a + b) && OnePollAfterShutdown(a + b, shutdownAt)
  {
    var t := a + b;
    forall i, j | 0 <= i < j < |t| && LeaseLost(t[i]) && t[j].PollBegan?
      ensures exists k :: i < k < j && t[k].AttemptsRemoved?
    {
      var k :| i - |a| < k < j - |a| && b[k].AttemptsRemoved?;
      assert t[|a| + k] == b[k];
    }
  }

  lemma PreparedSpaced(a: seq<Event>, b: seq<Event>, interval: nat)
    requires forall i :: 0 <= i < |a| ==> Preparation(a[i])
    requires ChecksSpaced(b, interval)
    ensures ChecksSpaced(a + b, interval)
  {
    var t := a + b;
    forall i | 0 <= i < |t| ensures PollReports(t, i) {
      if i >= |a| {
        ShiftPoll(a, b, i - |a|);
      }
    }
    forall i, j | 0 <= i && 0 <= j < |t| && IdleTurn(t, i) ensures Spaced(t, i, j, interval) {
      ShiftSpaced(a, b, i - |a|, j, interval);
    }
  }

  lemma PreparedKeeps(a: seq<Event>, b: seq<Event>, shutdownAt: Option<nat>, interval: nat, now: nat)
    requires forall i :: 0 <= i < |a| ==> Preparation(a[i])
    requires LoopKeeps(b, shutdownAt, interval, now)
    ensures RunKeeps(a + b, shutdownAt, interval)
  {
    PreparedLeases(a, b);
    PreparedOrder(a, b, shutdownAt);
    PreparedSpaced(a, b, interval);
  }

  ghost predicate RunKeeps(t: seq<Event>, shutdownAt: Option<nat>, interval: nat) {
    && OneLease(t) && LostStateRemoved(t) && DrainIsLast(t)
    && OnePollAfterShutdown(t, shutdownAt) && ChecksSpaced(t, interval)
  }

  /** Every run of the worker, whatever its environment does and whenever it is observed. */
  lemma EveryRunKeeps(script: Script)
    ensures var t := Run(script).trace;
            PollsPrepared(t) && RunKeeps(t, script.shutdownAt, script.diskCheckInterval)
  {
    var shutdownAt, interval, now := script.shutdownAt, script.diskCheckInterval, LoopStart(script);
    if Starts(script) {
      var rest := Turns(shutdownAt, interval, now, script.turns).trace;
      TurnsKeep(shutdownAt, interval, now, script.turns);
      assert rest != [] ==> PollReports(rest, 0);
      PreparedKeeps(Ready(script), rest, shutdownAt, interval, now);
    } else {
      PreparedKeeps(Ready(script), [], shutdownAt, interval, now);
      assert Ready(script) + [] == Ready(script);
    }
  }

  /** The disk-check interval, read off: a full agent that found no work checks its disk again no sooner. */
  lemma FullAgentWaits(script: Script, i: nat, j: nat)
    requires var t := Run(script).trace;
             i + 2 < j < |t| && IdleTurn(t, i) && t[i].room == Some(false) && t[j].CapacityChecked?
    ensures var t := Run(script).trace; t[j].at >= t[i].at + script.diskCheckInterval
  {
    EveryRunKeeps(script);
    assert Spaced(Run(script).trace, i, j, script.diskCheckInterval);
  }

  // ---------------------------------------------------------------- why a worker ends

  /** The worker was told to end: by the coordinator, idle or with its last job, or by a job's shutdown. */
  predicate ToldToStop(e: Event) {
    e.Drained? || (e.JobEnded? && (e.result == Completed(true) || e.result.LostToShutdown?))
  }

  ghost predicate EndsForCause(t: seq<Event>, verdict: Verdict, shutdownAt: Option<nat>)
    requires t != []
  {
    var last := t[|t| - 1];
    && (verdict == Stopped ==> shutdownAt.Some? || ToldToStop(last))
    && (ToldToStop(last) ==> verdict == Stopped)
    && (last.JobEnded? && last.result.JobFailed? ==> verdict == Failed)
  }

  ghost predicate ReplyForCause(r: Outcome, shutdownAt: Option<nat>) {
    if r.events == [] then r.verdict == Stopped ==> shutdownAt.Some? else EndsForCause(r.events, r.verdict, shutdownAt)
  }

  lemma PolledEnds(r: Outcome, now: nat, polling: nat, accept: bool, shutdownAt: Option<nat>)
    requires ReplyForCause(r, shutdownAt)
    ensures ReplyForCause(Polled(now, polling, accept, r), shutdownAt)
  {
  }

  lemma EndsAppend(a: seq<Event>, b: seq<Event>, verdict: Verdict, shutdownAt: Option<nat>)
    requires a != [] && (b == [] ==> EndsForCause(a, verdict, shutdownAt))
    requires b != [] ==> EndsForCause(b, verdict, shutdownAt)
    ensures EndsForCause(a + b, verdict, shutdownAt)
  {
  }

  lemma {:induction false} TurnsEnd(shutdownAt: Option<nat>, interval: nat, now: nat, turns: seq<Turn>)
    ensures var o := Turns(shutdownAt, interval, now, turns);
            if o.trace == [] then o.verdict == StillRunning else EndsForCause(o.trace, o.verdict, shutdownAt)
    decreases |turns|
  {
    if turns != [] {
      var o := TurnShaped(shutdownAt, interval, now, turns[0]);
      if o.verdict == StillRunning {
        TurnsEnd(shutdownAt, interval, o.now, turns[1..]);
        var rest := Turns(shutdownAt, interval, o.now, turns[1..]);
        EndsAppend(o.events, rest.trace, rest.verdict, shutdownAt);
      }
    }
  }

  /** A worker ends well only after a shutdown request or when it was told to stop, and always then. */
  lemma EveryEndHasACause(script: Script)
    ensures var o := Run(script); o.trace == [] || EndsForCause(o.trace, o.verdict, script.shutdownAt)
  {
    if Starts(script) {
      var o := Turns(script.shutdownAt, script.diskCheckInterval, LoopStart(script), script.turns);
      TurnsEnd(script.shutdownAt, script.diskCheckInterval, LoopStart(script), script.turns);
      EndsAppend(Ready(script), o.trace, o.verdict, script.shutdownAt);
    }
  }
}
