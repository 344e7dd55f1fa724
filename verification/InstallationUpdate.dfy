/**
 The installation update: it stages a whole new configuration beside the live one, checks it, stops
 the services, exchanges the two directories in one step, and exchanges them back when the caller's
 startup fails. The live directory may be missing: other editors, and the startup, can remove it.
 */
module InstallationUpdate {
  import opened Values
  import opened PrivateTree
  import opened Staging

  // ---------------------------------------------------------------- access ceilings

  datatype Reference = Reference(project: string, identity: string, version: string, digest: string)

  /** A catalog entry: its kind, its exact reference, and the permissions it declares if any. */
  datatype CatalogEntry = CatalogEntry(kind: string, reference: Reference, permissions: Option<string>)

  const CEILING: string := "permission_ceiling"

  predicate Declares(e: CatalogEntry) {
    e.kind == CEILING && e.permissions.Some?
  }

  ghost predicate DeclaredIn(entries: seq<CatalogEntry>, reference: Reference, permissions: string) {
    CatalogEntry(CEILING, reference, Some(permissions)) in entries
  }

  method AccessDeclarations(entries: seq<CatalogEntry>) returns (declarations: map<Reference, set<string>>)
    ensures forall r :: r in declarations <==> exists p :: DeclaredIn(entries, r, p)
    ensures forall r, p :: r in declarations ==> (p in declarations[r] <==> DeclaredIn(entries, r, p))
  {
    declarations := map[];
    for i := 0 to |entries|
      invariant forall r :: r in declarations ==> declarations[r] != {}
      invariant forall r, p :: r in declarations && p in declarations[r] ==> DeclaredIn(entries[..i], r, p)
      invariant forall r, p :: DeclaredIn(entries[..i], r, p) ==> r in declarations && p in declarations[r]
    {
      var entry := entries[i];
      assert entries[..i + 1] == entries[..i] + [entry];
      assert forall r, p :: DeclaredIn(entries[..i + 1], r, p) <==>
        DeclaredIn(entries[..i], r, p) || entry == CatalogEntry(CEILING, r, Some(p));
      if Declares(entry) {
        var grants := if entry.reference in declarations then declarations[entry.reference] else {};
        declarations := declarations[entry.reference := grants + {entry.permissions.value}];
      }
    }
    assert entries[..|entries|] == entries;
    forall r | r in declarations ensures exists p :: DeclaredIn(entries, r, p) {
      var p :| p in declarations[r];
      assert DeclaredIn(entries, r, p);
    }
  }

  /** No exact reference that both catalogs declare changes what it grants. */
  ghost predicate CeilingsKept(before: seq<CatalogEntry>, after: seq<CatalogEntry>) {
    forall r, p, q :: DeclaredIn(before, r, p) && DeclaredIn(after, r, q) ==>
      DeclaredIn(after, r, p) && DeclaredIn(before, r, q)
  }

  method CheckCeilings(before: seq<CatalogEntry>, after: seq<CatalogEntry>) returns (ok: bool)
    ensures ok <==> CeilingsKept(before, after)
  {
    var original := AccessDeclarations(before);
    var requested := AccessDeclarations(after);
    var pending := requested.Keys;
    while pending != {}
      invariant pending <= requested.Keys
      invariant forall r :: r in requested && r !in pending && r in original ==> requested[r] == original[r]
      decreases |pending|
    {
      var reference :| reference in pending;
      if reference in original && requested[reference] != original[reference] {
        CeilingChanged(before, after, original, requested, reference);
        return false;
      }
      pending := pending - {reference};
    }
    forall r, p, q | DeclaredIn(before, r, p) && DeclaredIn(after, r, q)
      ensures DeclaredIn(after, r, p) && DeclaredIn(before, r, q)
    {
      assert r in original && r in requested;
      assert p in original[r] && q in requested[r];
    }
    return true;
  }

  ghost predicate Collected(entries: seq<CatalogEntry>, d: map<Reference, set<string>>) {
    && (forall r :: r in d <==> exists p :: DeclaredIn(entries, r, p))
    && (forall r, p :: r in d ==> (p in d[r] <==> DeclaredIn(entries, r, p)))
  }

  lemma CeilingChanged(before: seq<CatalogEntry>, after: seq<CatalogEntry>,
                       original: map<Reference, set<string>>, requested: map<Reference, set<string>>, r: Reference)
    requires Collected(before, original) && Collected(after, requested)
    requires r in original && r in requested && requested[r] != original[r]
    ensures !CeilingsKept(before, after)
  {
    var p :| DeclaredIn(before, r, p);
    var q :| DeclaredIn(after, r, q);
    if CeilingsKept(before, after) {
      forall x ensures x in original[r] <==> x in requested[r] {
        assert x in original[r] ==> DeclaredIn(before, r, x);
        assert x in requested[r] ==> DeclaredIn(after, r, x);
      }
      assert false;
    }
  }

  // ---------------------------------------------------------------- the protocol of an update

  datatype Step =
    | Begun
    | ServerPublished
    | Staged
    | Preflighted
    | Checked
    | Probed
    | StopCalled
    | Stopped
    | Rechecked
    | Exchanged
    | BodyRan
    | BodyRanInPlace
    | Restored
    | Cleaned

  /** The disk after a step, or after an outside edit that follows it; a directory may be missing. A crash
      leaves one of these behind. */
  datatype Moment = Moment(step: Step, live: Option<FileSystem>, staged: Option<FileSystem>)

  /** The configuration that an update starts from, and the one it stages. */
  datatype Plan = Plan(original: FileSystem, next: FileSystem)

  /** Both directories were there, and changed places. */
  predicate SwappedFrom(a: Moment, b: Moment) {
    a.live.Some? && a.staged.Some? && a.staged == b.live && b.staged == a.live
  }

  /** The steps that leave both directories alone, with the step each one comes after. */
  predicate Quiet(before: Step, after: Step) {
    || (before == Staged && after == Preflighted)
    || (before == Preflighted && after == Checked)
    || (before == Checked && after == Probed)
    || (before == Probed && after == StopCalled)
    || (before == StopCalled && after == Stopped)
    || (before == Stopped && after == Rechecked)
  }

  /** Two moments that come one after the other. Within a step only others change the live directory. */
  predicate Follows(a: Moment, b: Moment, p: Plan)
  {
    if a.step == b.step then a.staged == b.staged
    else if b.step.Exchanged? then a.step.Rechecked? && SwappedFrom(a, b)
    else if b.step.Restored? then a.step.BodyRan? && SwappedFrom(a, b)
    else if b.step.BodyRan? then a.step.Exchanged? && a.staged == b.staged
    else if b.step.BodyRanInPlace? then a.step.Checked? && a.staged == b.staged == Some(p.original)
    else if b.step.Cleaned? then a.live == b.live && b.staged.None?
    else if b.step.ServerPublished? then
      a.step.Begun? && a.live.Some? && SERVER !in a.live.value && a.staged == b.staged
    else if b.step.Staged? then
      && (a.step.Begun? || a.step.ServerPublished?) && a.live == b.live == Some(p.original)
      && b.staged == Some(p.next)
    else
      && Quiet(a.step, b.step) && a.live == b.live && a.staged == b.staged
      && (b.step.Checked? || b.step.Rechecked? ==> b.live == Some(p.original))
  }

  /** The moment at `i` follows the one before it; nothing follows a cleanup. */
  ghost predicate FollowsAt(h: seq<Moment>, i: nat, p: Plan)
    requires 0 < i < |h|
  {
    Follows(h[i - 1], h[i], p) && !h[i - 1].step.Cleaned?
  }

  ghost predicate Protocol(h: seq<Moment>, p: Plan) {
    && h != [] && h[0] == Moment(Begun, Some(p.original), None)
    && forall i {:trigger FollowsAt(h, i, p)} :: 0 < i < |h| ==> FollowsAt(h, i, p)
  }

  ghost predicate DoneAt(h: seq<Moment>, i: nat)
    requires 0 < i < |h|
  {
    AsTheUpdateDoes(h[i - 1], h[i])
  }

  /** No one but the update changes the live directory, and there is a server bundle to start from. */
  ghost predicate OnlyTheUpdate(h: seq<Moment>) {
    forall i {:trigger DoneAt(h, i)} :: 0 < i < |h| ==> DoneAt(h, i)
  }

  /** One more moment. */
  lemma Extend(h: seq<Moment>, m: Moment, p: Plan)
    requires Protocol(h, p) && Follows(h[|h| - 1], m, p) && !h[|h| - 1].step.Cleaned?
    ensures Protocol(h + [m], p)
    ensures OnlyTheUpdate(h) && AsTheUpdateDoes(h[|h| - 1], m) ==> OnlyTheUpdate(h + [m])
  {
    var more := h + [m];
    forall i | 0 < i < |more| ensures FollowsAt(more, i, p) {
      assert i < |h| ==> FollowsAt(h, i, p);
    }
    if OnlyTheUpdate(h) && AsTheUpdateDoes(h[|h| - 1], m) {
      forall i | 0 < i < |more| ensures DoneAt(more, i) {
        assert i < |h| ==> DoneAt(h, i);
      }
    }
  }

  predicate AsTheUpdateDoes(a: Moment, b: Moment) {
    && (a.step == b.step || b.step.BodyRan? || b.step.BodyRanInPlace? ==> a.live == b.live)
    && !b.step.ServerPublished?
  }

  /** One generation is live and, from staging until cleanup, the other one is kept beside it. */
  ghost predicate Whole(m: Moment, p: Plan)
  {
    && m.live.Some?
    && (if m.step.Cleaned? then m.live == Some(p.original) || m.live == Some(p.next)
        else if m.step.Begun? then m.live == Some(p.original)
        else if m.step.Exchanged? || m.step.BodyRan? then m.live == Some(p.next) && m.staged == Some(p.original)
        else m.live == Some(p.original) && m.staged == Some(p.next))
  }

  lemma WholeStep(a: Moment, b: Moment, p: Plan)
    requires Follows(a, b, p) && AsTheUpdateDoes(a, b) && Whole(a, p)
    ensures Whole(b, p)
  {
  }

  /** Alone, an update leaves at every moment, and so after a crash at any moment, one whole generation live:
      the next one from the exchange until a restore, and the old one otherwise. */
  lemma {:induction false} LiveIsAlwaysWhole(h: seq<Moment>, p: Plan, i: nat)
    requires Protocol(h, p) && OnlyTheUpdate(h) && i < |h|
    ensures Whole(h[i], p)
  {
    if i > 0 {
      LiveIsAlwaysWhole(h, p, i - 1);
      assert FollowsAt(h, i, p) && DoneAt(h, i);
      WholeStep(h[i - 1], h[i], p);
    }
  }

  /** The moment at which a step is first reached. */
  ghost predicate Entered(h: seq<Moment>, j: nat, step: Step) {
    0 < j < |h| && h[j].step == step && h[j - 1].step != step
  }

  lemma {:induction false} EntryOf(h: seq<Moment>, p: Plan, i: nat) returns (j: nat)
    requires Protocol(h, p) && i < |h| && !h[i].step.Begun?
    ensures j <= i && Entered(h, j, h[i].step) && FollowsAt(h, j, p)
    ensures forall k :: j <= k <= i ==> h[k].step == h[i].step && h[k].staged == h[i].staged
  {
    assert i > 0 && FollowsAt(h, i, p);
    if h[i - 1].step != h[i].step {
      j := i;
    } else {
      j := EntryOf(h, p, i - 1);
    }
  }

  predicate BeforeExchange(s: Step) {
    !s.Exchanged? && !s.BodyRan? && !s.BodyRanInPlace? && !s.Restored? && !s.Cleaned?
  }

  /** Until the exchange, what is staged is the next configuration, whoever edits the live one. */
  lemma {:induction false} StagedIsNext(h: seq<Moment>, p: Plan, i: nat)
    requires Protocol(h, p) && i < |h| && BeforeExchange(h[i].step)
    ensures if h[i].step.Begun? || h[i].step.ServerPublished? then h[i].staged.None?
            else h[i].staged == Some(p.next)
  {
    if i > 0 {
      assert FollowsAt(h, i, p);
      StagedIsNext(h, p, i - 1);
    }
  }

  /** Services are stopped only after the preflight passed, then the live configuration was found unchanged,
      then the exchange was probed; whoever else edits the directory. */
  lemma StopIsGuarded(h: seq<Moment>, p: Plan, i: nat) returns (preflight: nat, check: nat, probe: nat)
    requires Protocol(h, p) && i < |h| && h[i].step.StopCalled?
    ensures preflight < check < probe < i
    ensures Entered(h, preflight, Preflighted) && Entered(h, check, Checked) && Entered(h, probe, Probed)
    ensures h[check].live == Some(p.original) && h[check].staged == Some(p.next)
  {
    var stop := EntryOf(h, p, i);
    probe := EntryOf(h, p, stop - 1);
    check := EntryOf(h, p, probe - 1);
    preflight := EntryOf(h, p, check - 1);
    StagedIsNext(h, p, check);
  }

  /** The exchange follows a stop after which the live configuration was found unchanged, so it puts aside the
      configuration the update started from unless someone edits it after that last look. */
  lemma ExchangeIsGuarded(h: seq<Moment>, p: Plan, i: nat) returns (stopped: nat, check: nat)
    requires Protocol(h, p) && Entered(h, i, Exchanged)
    ensures stopped < check < i && Entered(h, stopped, Stopped) && Entered(h, check, Rechecked)
    ensures h[check].live == Some(p.original) && h[i].staged == h[i - 1].live
    ensures check == i - 1 ==> h[i].staged == Some(p.original)
    ensures h[i].live == Some(p.next)
  {
    assert FollowsAt(h, i, p);
    check := EntryOf(h, p, i - 1);
    stopped := EntryOf(h, p, check - 1);
    StagedIsNext(h, p, i - 1);
  }

  /** A restore brings back what the exchange put aside, whatever the body or others did to the live directory. */
  lemma RestoreIsExact(h: seq<Moment>, p: Plan, i: nat) returns (x: nat)
    requires Protocol(h, p) && Entered(h, i, Restored)
    ensures x < i && Entered(h, x, Exchanged) && h[i].live == h[x - 1].live
  {
    assert FollowsAt(h, i, p);
    var ran := EntryOf(h, p, i - 1);
    x := EntryOf(h, p, ran - 1);
  }

  /** From the exchange until a restore or the cleanup, what was put aside is on disk, whatever the body does to
      the live directory. */
  lemma PutAsideIsKept(h: seq<Moment>, p: Plan, i: nat) returns (x: nat)
    requires Protocol(h, p) && i < |h| && (h[i].step.Exchanged? || h[i].step.BodyRan?)
    ensures x <= i && Entered(h, x, Exchanged) && h[x - 1].live.Some? && h[i].staged == h[x - 1].live
  {
    var entry := EntryOf(h, p, i);
    if h[i].step.Exchanged? {
      x := entry;
    } else {
      x := EntryOf(h, p, entry - 1);
    }
  }

  /** But a cleanup without a restore discards it: nothing but what the body left is on disk then. */
  lemma CleanupDiscards(h: seq<Moment>, p: Plan, i: nat) returns (x: nat)
    requires Protocol(h, p) && Entered(h, i, Cleaned) && h[i - 1].step.BodyRan?
    ensures x < i && Entered(h, x, Exchanged) && h[i - 1].staged == h[x - 1].live
    ensures h[i].staged.None? && h[i].live == h[i - 1].live
  {
    assert FollowsAt(h, i, p);
    x := PutAsideIsKept(h, p, i - 1);
  }

  function Rank(s: Step): nat {
    match s
    case Begun => 0 case ServerPublished => 1 case Staged => 2 case Preflighted => 3 case Checked => 4
    case Probed => 5 case StopCalled => 6 case Stopped => 7 case Rechecked => 8 case Exchanged => 9
    case BodyRan => 10 case Restored => 11 case BodyRanInPlace => 12 case Cleaned => 13
  }

  lemma {:induction false} StepsOnlyAdvance(h: seq<Moment>, p: Plan, i: nat, j: nat)
    requires Protocol(h, p) && i <= j < |h|
    ensures Rank(h[i].step) <= Rank(h[j].step)
    decreases j
  {
    if i < j {
      StepsOnlyAdvance(h, p, i, j - 1);
      assert FollowsAt(h, j, p);
    }
  }

  /** An update that would change nothing stops nothing, and one that has not exchanged so far never has. */
  lemma NothingStoppedInVain(h: seq<Moment>, p: Plan, i: nat, j: nat)
    requires Protocol(h, p) && i <= j < |h|
    ensures h[j].step.BodyRanInPlace? ==> !h[i].step.StopCalled? && !h[i].step.Exchanged?
    ensures BeforeExchange(h[j].step) ==> BeforeExchange(h[i].step)
  {
    StepsOnlyAdvance(h, p, i, j);
    if h[j].step.BodyRanInPlace? {
      var entry := EntryOf(h, p, j);
      if i < entry {
        StepsOnlyAdvance(h, p, i, entry - 1);
      }
    }
  }

  // ---------------------------------------------------------------- what the update meets

  /** What others, or the caller's startup, make of the live directory. */
  datatype Edit = Untouched | Left(tree: FileSystem) | Gone

  function Applied(edit: Edit, live: Option<FileSystem>): Option<FileSystem> {
    match edit
    case Untouched => live
    case Left(tree) => Some(tree)
    case Gone => None
  }

  /** What others do before one look at the live directory, and whether no read fails then. */
  datatype Look = Look(edit: Edit, readable: bool)

  /** The verdicts of the checks that the update calls, other editors, and the caller's startup in the body.
      `published` is the live directory with a server bundle added to it. */
  datatype World = World(
    locked: bool, initialized: bool, first: bool,
    agentAgrees: bool,
    exported: bool,
    installedProfiles: Option<seq<CatalogEntry>>, profiles: seq<CatalogEntry>,
    serverAgrees: bool, published: FileSystem,
    staging: Look,
    serverGenerates: bool, agentGenerates: bool,
    preflight: bool, preflighting: Look,
    stagedReadable: bool,
    probe: bool,
    beforeStop: Edit, stops: bool, stopping: Look,
    lastMoment: Edit, exchanges: bool,
    body: Edit, bodyRaises: bool, restores: bool)

  ghost predicate LeavesATree(edit: Edit) {
    edit.Left? ==> IsTree(edit.tree)
  }

  /** Directories hold trees. */
  ghost predicate IsWorld(w: World) {
    && IsTree(w.published) && LeavesATree(w.staging.edit) && LeavesATree(w.preflighting.edit)
    && LeavesATree(w.beforeStop) && LeavesATree(w.stopping.edit) && LeavesATree(w.lastMoment) && LeavesATree(w.body)
  }

  predicate NoOtherEditor(w: World) {
    && w.staging.edit.Untouched? && w.preflighting.edit.Untouched? && w.beforeStop.Untouched?
    && w.stopping.edit.Untouched? && w.lastMoment.Untouched? && w.body.Untouched?
  }

  /** The checks that come before anything is staged. */
  ghost predicate Acceptable(w: World, original: FileSystem) {
    && w.locked && w.initialized && w.first && Legible(original) && AGENT_TOML in original && w.agentAgrees
          && w.exported
    && (w.installedProfiles.Some? ==> CeilingsKept(w.installedProfiles.value, w.profiles))
  }

  /** An edit before a look goes unnoticed only if it leaves the original. */
  predicate Finds(look: Look, live: Option<FileSystem>, original: FileSystem) {
    look.readable && Applied(look.edit, live) == Some(original)
  }

  /** The installed bundle is verified, the copy is the original, and the next configuration can be staged. */
  predicate StagesWell(w: World, p: Plan, stageable: bool) {
    && SERVER in p.original && w.serverAgrees && Finds(w.staging, Some(p.original), p.original)
    && w.serverGenerates && w.agentGenerates && stageable
  }

  /** The preflight passes, the second look finds the original, and what is staged is legible. */
  ghost predicate ChecksWell(w: World, p: Plan) {
    w.preflight && Finds(w.preflighting, Some(p.original), p.original) && w.stagedReadable && Legible(p.next)
  }

  /** The checks pass and every look finds the configuration that the update started from. */
  ghost predicate Welcome(w: World, p: Plan, stageable: bool) {
    Acceptable(w, p.original) && StagesWell(w, p, stageable) && ChecksWell(w, p)
  }

  /** The live directory just before the exchange. */
  function AtExchange(w: World, original: FileSystem): Option<FileSystem> {
    Applied(w.lastMoment, Some(original))
  }

  predicate Swaps(w: World, original: FileSystem) {
    && w.probe && w.stops && Finds(w.stopping, Applied(w.beforeStop, Some(original)), original)
    && w.exchanges && AtExchange(w, original).Some?
  }

  /** Someone else left the live directory like this. */
  predicate EditedTo(w: World, live: Option<FileSystem>) {
    || live == Applied(w.staging.edit, None) || live == Applied(w.preflighting.edit, None)
    || live == Applied(w.beforeStop, None) || live == Applied(w.stopping.edit, None)
    || live == Applied(w.lastMoment, None)
  }

  datatype Outcome =
    | Refused
    | Completed(changed: bool)
    | BodyFailed(changed: bool, restored: bool)

  method Admit(w: World, original: Option<map<Path, Record<string>>>, live: FileSystem) returns (ok: bool)
    requires original.Some? <==> w.first && Legible(live)
    ensures ok <==> Acceptable(w, live)
  {
    if !w.locked || !w.initialized || original.None? || AGENT_TOML !in live || !w.agentAgrees || !w.exported {
      return false;
    }
    if w.installedProfiles.None? {
      return true;
    }
    ok := CheckCeilings(w.installedProfiles.value, w.profiles);
  }

  // ---------------------------------------------------------------- the transaction

  class Stand {
    var live: Option<FileSystem>
    var staged: Option<FileSystem>
    ghost var history: seq<Moment>
    ghost var alone: bool           // nobody but the update is to change the live directory
    const generated: Generated
    const isIntegration: Bytes -> bool
    ghost const plan: Plan

    /** What is generated for the plan is a bundle, and the plan's next configuration is what it stages. */
    ghost predicate Planned() {
      && IsTree(plan.original) && IsTree(plan.next) && IsGenerated(generated)
      && (CanStage() ==> plan.next == NextTree(plan.original, plan.original, generated, isIntegration))
    }

    ghost predicate CanStage() {
      Stageable(plan.original, plan.original, isIntegration)
    }

    /** The world leaves trees, and is alone with the update if that is what is observed. */
    ghost predicate Fits(w: World)
      reads this`alone
    {
      IsWorld(w) && (alone ==> NoOtherEditor(w) && SERVER in plan.original)
    }

    /** The history keeps the protocol and ends with the present, in which a directory is a tree. */
    ghost predicate At(step: Step)
      reads this
    {
      && Protocol(history, plan) && history[|history| - 1] == Moment(step, live, staged) && !step.Cleaned?
      && (live.Some? ==> IsTree(live.value)) && (alone ==> OnlyTheUpdate(history))
    }

    /** The update is over: nothing is staged any more. */
    ghost predicate Ended()
      reads this
    {
      && Protocol(history, plan) && history[|history| - 1] == Moment(Cleaned, live, None) && staged.None?
      && (alone ==> OnlyTheUpdate(history))
    }

    ghost function Reached(): (step: Step)
      reads this
    {
      if history == [] then Begun else history[|history| - 1].step
    }

    constructor (tree: FileSystem, generated: Generated, isIntegration: Bytes -> bool)
      requires IsTree(tree) && IsGenerated(generated)
      ensures Planned() && plan.original == tree && live == Some(tree) && staged == None
      ensures this.generated == generated && this.isIntegration == isIntegration
      ensures At(Begun) && history == [Moment(Begun, live, None)]
    {
      live, staged, history := Some(tree), None, [Moment(Begun, Some(tree), None)];
      this.generated, this.isIntegration := generated, isIntegration;
      if Stageable(tree, tree, isIntegration) {
        NextMeets(tree, tree, generated, isIntegration);
        NextIsTree(NextTree(tree, tree, generated, isIntegration), tree, tree, generated, isIntegration);
        plan := Plan(tree, NextTree(tree, tree, generated, isIntegration));
      } else {
        plan := Plan(tree, tree);
      }
    }

    /** The live directory becomes what others make it. */
    method Outside(ghost step: Step, edit: Edit)
      requires At(step) && LeavesATree(edit) && (alone ==> edit.Untouched?)
      modifies this`live, this`history
      ensures At(step) && live == Applied(edit, old(live))
      ensures edit.Untouched? ==> history == old(history)
    {
      if !edit.Untouched? {
        live := Applied(edit, live);
        Extend(history, Moment(step, live, staged), plan);
        history := history + [Moment(step, live, staged)];
      }
    }

    ghost method Pass(step: Step, next: Step)
      requires At(step)
      requires Quiet(step, next) && (next.Checked? || next.Rechecked? ==> live == Some(plan.original))
      modifies this`history
      ensures At(next)
    {
      Extend(history, Moment(next, live, staged), plan);
      history := history + [Moment(next, live, staged)];
    }

    /** The two directories change places, or the call fails and nothing changes: it fails when the host refuses
        or a directory is missing. */
    method Exchange(works: bool, ghost step: Step, ghost next: Step) returns (ok: bool)
      requires At(step) && (staged.Some? ==> IsTree(staged.value))
      requires (step.Rechecked? && next.Exchanged?) || (step.BodyRan? && next.Restored?)
      modifies this`live, this`staged, this`history
      ensures ok <==> works && old(live).Some? && old(staged).Some?
      ensures if ok then live == old(staged) && staged == old(live) && At(next)
              else live == old(live) && staged == old(staged) && At(step)
    {
      ok := works && live.Some? && staged.Some?;
      if ok {
        live, staged := staged, live;
        Extend(history, Moment(next, live, staged), plan);
        history := history + [Moment(next, live, staged)];
      }
    }

    /** The temporary directory goes, and with it whatever is staged. */
    method Clean(ghost step: Step)
      requires At(step)
      modifies this`staged, this`history
      ensures Ended()
    {
      staged := None;
      Extend(history, Moment(Cleaned, live, staged), plan);
      history := history + [Moment(Cleaned, live, staged)];
    }

    /** Regenerates the installed server bundle: an installed one is only verified; where none is installed, one
        is published. */
    method RegenerateServer(w: World) returns (ok: bool)
      requires Fits(w) && At(Begun) && live == Some(plan.original) && IsTree(w.published)
      modifies this`live, this`history
      ensures ok == w.serverAgrees
      ensures if SERVER in old(live).value || !ok then live == old(live) && history == old(history) && At(Begun)
              else At(ServerPublished) && live == Some(w.published)
    {
      if SERVER !in live.value && w.serverAgrees {
        live := Some(w.published);
        Extend(history, Moment(ServerPublished, live, staged), plan);
        history := history + [Moment(ServerPublished, live, staged)];
      }
      return w.serverAgrees;
    }

    method Put(ghost step: Step, next: FileSystem)
      requires At(step) && (step.Begun? || step.ServerPublished?)
      requires live == Some(plan.original) && next == plan.next
      modifies this`staged, this`history
      ensures At(Staged) && staged == Some(next)
    {
      staged := Some(next);
      Extend(history, Moment(Staged, live, staged), plan);
      history := history + [Moment(Staged, live, staged)];
    }

    /** Looks at the live directory after others had their turn. */
    method Look(look: Look, original: map<Path, Record<string>>, ghost step: Step, sha256: Bytes -> string)
      returns (same: bool)
      requires Injective(sha256) && At(step) && LeavesATree(look.edit) && (alone ==> look.edit.Untouched?)
      requires Legible(plan.original) && original == Snapshot(plan.original, sha256)
      modifies this`live, this`history
      ensures At(step) && live == Applied(look.edit, old(live))
      ensures look.edit.Untouched? ==> history == old(history)
      ensures same <==> Finds(look, old(live), plan.original)
    {
      Outside(step, look.edit);
      var seen := TakeSnapshot(live, look.readable, sha256);
      if seen.Some? {
        SnapshotDecides(live.value, plan.original, sha256);
      }
      return seen == Some(original);
    }

    /** Stages the next configuration from a copy of the live one, if that is still the original. */
    method StageNext(w: World, original: map<Path, Record<string>>, ghost step: Step, sha256: Bytes -> string)
      returns (ok: bool)
      requires Injective(sha256) && Planned() && Fits(w) && At(step) && (step.Begun? || step.ServerPublished?)
      requires Legible(plan.original) && original == Snapshot(plan.original, sha256)
      modifies this`live, this`staged, this`history
      ensures ok <==>
        && Finds(w.staging, old(live), plan.original) && w.serverGenerates && w.agentGenerates
        && CanStage()
      ensures live == Applied(w.staging.edit, old(live))
      ensures if ok then At(Staged) && live == Some(plan.original) && staged == Some(plan.next)
              else At(step)
    {
      ok := Look(w.staging, original, step, sha256);
      if ok {
        var next := Stage(live.value, live.value, generated, isIntegration);
        ok := w.serverGenerates && next.Some? && w.agentGenerates;
        if ok {
          Put(step, next.value);
        }
      }
    }

    /** Runs the caller's preflight on the staged configuration and looks at the live one again. */
    method Preflight(w: World, original: map<Path, Record<string>>, sha256: Bytes -> string) returns (ok: bool)
      requires Injective(sha256) && Planned() && Fits(w) && At(Staged) && live == Some(plan.original)
      requires Legible(plan.original) && original == Snapshot(plan.original, sha256)
      modifies this`live, this`history
      ensures ok <==> w.preflight && Finds(w.preflighting, Some(plan.original), plan.original)
      ensures live == Some(plan.original) || live == Applied(w.preflighting.edit, None)
      ensures if ok then At(Checked) && live == Some(plan.original) else At(Staged) || At(Preflighted)
    {
      if !w.preflight {
        return false;
      }
      Pass(Staged, Preflighted);
      ok := Look(w.preflighting, original, Preflighted, sha256);
      if ok {
        Pass(Preflighted, Checked);
      }
    }

    /** Verifies the installed bundle and stages the next configuration. */
    method StageAnew(w: World, original: map<Path, Record<string>>, sha256: Bytes -> string) returns (ok: bool)
      requires Injective(sha256) && Planned() && Fits(w) && At(Begun) && live == Some(plan.original)
      requires Legible(plan.original) && original == Snapshot(plan.original, sha256)
      modifies this`live, this`staged, this`history
      ensures ok <==> StagesWell(w, plan, CanStage())
      ensures At(Reached())
      ensures if ok then Reached() == Staged && live == Some(plan.original) && staged == Some(plan.next)
              else BeforeExchange(Reached())
      ensures !ok && SERVER in plan.original ==> live == Some(plan.original) || EditedTo(w, live)
    {
      ok := RegenerateServer(w);
      if ok {
        ok := StageNext(w, original, Reached(), sha256);
      }
    }

    /** Runs the preflight and looks at both directories. */
    method CheckStaged(w: World, original: map<Path, Record<string>>, sha256: Bytes -> string) returns (ok: bool)
      requires Injective(sha256) && Planned() && Fits(w) && At(Staged) && live == Some(plan.original)
      requires staged == Some(plan.next) && Legible(plan.original) && original == Snapshot(plan.original, sha256)
      modifies this`live, this`history
      ensures ok <==> ChecksWell(w, plan)
      ensures At(Reached())
      ensures if ok then Reached() == Checked && live == Some(plan.original) else BeforeExchange(Reached())
      ensures !ok ==> live == Some(plan.original) || EditedTo(w, live)
    {
      ok := Preflight(w, original, sha256);
      if ok {
        var seen := TakeSnapshot(staged, w.stagedReadable, sha256);
        ok := seen.Some?;
      }
    }

    /** Everything up to the second look: the next configuration is staged, checked and found welcome. */
    method Prepare(w: World, original: map<Path, Record<string>>, sha256: Bytes -> string) returns (ok: bool)
      requires Injective(sha256) && Planned() && Fits(w) && At(Begun) && live == Some(plan.original)
      requires Legible(plan.original) && original == Snapshot(plan.original, sha256)
      modifies this`live, this`staged, this`history
      ensures ok <==> StagesWell(w, plan, CanStage()) && ChecksWell(w, plan)
      ensures At(Reached())
      ensures if ok then Reached() == Checked && live == Some(plan.original) && staged == Some(plan.next)
              else BeforeExchange(Reached())
      ensures !ok && SERVER in plan.original ==> live == Some(plan.original) || EditedTo(w, live)
    {
      ok := StageAnew(w, original, sha256);
      if ok {
        ok := CheckStaged(w, original, sha256);
      }
    }

    /** Probes the exchange and then stops the services. */
    method StopServices(w: World) returns (ok: bool)
      requires Fits(w) && At(Checked)
      modifies this`live, this`history
      ensures ok <==> w.probe && w.stops
      ensures live == old(live) || live == Applied(w.beforeStop, None)
      ensures At(Reached())
      ensures if ok then Reached() == Stopped && live == Applied(w.beforeStop, old(live))
              else BeforeExchange(Reached())
    {
      if !w.probe {
        return false;
      }
      Pass(Checked, Probed);
      Outside(Probed, w.beforeStop);
      Pass(Probed, StopCalled);
      if !w.stops {
        return false;
      }
      Pass(StopCalled, Stopped);
      return true;
    }

    /** Looks at the live directory once more, and exchanges the two. */
    method LookAndExchange(w: World, original: map<Path, Record<string>>, sha256: Bytes -> string) returns (ok: bool)
      requires Injective(sha256) && Planned() && Fits(w) && At(Stopped) && staged.Some? && IsTree(staged.value)
      requires Legible(plan.original) && original == Snapshot(plan.original, sha256)
      modifies this`live, this`staged, this`history
      ensures ok <==>
        Finds(w.stopping, old(live), plan.original) && w.exchanges && AtExchange(w, plan.original).Some?
      ensures At(Reached())
      ensures if ok then Reached() == Exchanged && live == old(staged) && staged == AtExchange(w, plan.original)
              else BeforeExchange(Reached())
      ensures !ok ==>
        || live == old(live) || live == Applied(w.stopping.edit, None) || live == Applied(w.lastMoment, None)
        || live == Some(plan.original)
    {
      ok := Look(w.stopping, original, Stopped, sha256);
      if ok {
        ok := ExchangeNow(w);
      }
    }

    /** After the last look, which found the original, others still have a moment before the exchange. */
    method ExchangeNow(w: World) returns (ok: bool)
      requires Fits(w) && At(Stopped) && live == Some(plan.original) && staged.Some? && IsTree(staged.value)
      modifies this`live, this`staged, this`history
      ensures ok <==> w.exchanges && AtExchange(w, plan.original).Some?
      ensures At(Reached()) && Reached() == if ok then Exchanged else Rechecked
      ensures ok ==> live == old(staged) && staged == AtExchange(w, plan.original)
      ensures !ok ==> live == AtExchange(w, plan.original)
    {
      Pass(Stopped, Rechecked);
      Outside(Rechecked, w.lastMoment);
      ok := Exchange(w.exchanges, Rechecked, Exchanged);
    }

    method Swap(w: World, original: map<Path, Record<string>>, sha256: Bytes -> string) returns (ok: bool)
      requires Injective(sha256) && Planned() && Fits(w) && At(Checked) && live == Some(plan.original)
      requires staged.Some? && IsTree(staged.value)
      requires Legible(plan.original) && original == Snapshot(plan.original, sha256)
      modifies this`live, this`staged, this`history
      ensures ok <==> Swaps(w, plan.original)
      ensures At(Reached())
      ensures if ok then Reached() == Exchanged && live == old(staged) && staged == AtExchange(w, plan.original)
              else BeforeExchange(Reached())
      ensures !ok ==> live == Some(plan.original) || EditedTo(w, live)
    {
      ok := StopServices(w);
      if ok {
        ok := LookAndExchange(w, original, sha256);
      }
    }

    /** The caller's startup, which may leave anything, or nothing, in place of the live directory. */
    method RunBody(body: Edit, ghost step: Step, ghost next: Step)
      requires At(step) && LeavesATree(body) && (alone ==> body.Untouched?)
      requires (step.Exchanged? && next.BodyRan?)
               || (step.Checked? && next.BodyRanInPlace? && staged == Some(plan.original))
      modifies this`live, this`history
      ensures At(next) && live == Applied(body, old(live))
    {
      live := Applied(body, live);
      Extend(history, Moment(next, live, staged), plan);
      history := history + [Moment(next, live, staged)];
    }

    /** After an exchange: the startup, a restore if it raises, and the cleanup. The restore happens exactly when
        the startup left the live directory in place and the host exchanges; otherwise what was put aside is
        gone with the temporary directory. */
    method StartOrRestore(w: World) returns (outcome: Outcome)
      requires Fits(w) && At(Exchanged) && staged.Some? && IsTree(staged.value) && live.Some?
      modifies this`live, this`staged, this`history
      ensures Ended()
      ensures outcome == Ends(w, true)
      ensures live == if outcome == BodyFailed(true, true) then old(staged) else Applied(w.body, old(live))
    {
      RunBody(w.body, Exchanged, BodyRan);
      if !w.bodyRaises {
        Clean(BodyRan);
        return Completed(true);
      }
      var restored := Exchange(w.restores, BodyRan, Restored);
      Clean(Reached());
      return BodyFailed(true, restored);
    }

    /** When nothing changes: the startup over the live directory as it is. */
    method StartInPlace(w: World) returns (outcome: Outcome)
      requires Fits(w) && At(Checked) && staged == Some(plan.original)
      modifies this`live, this`staged, this`history
      ensures Ended() && live == Applied(w.body, old(live))
      ensures outcome == Ends(w, false)
    {
      RunBody(w.body, Checked, BodyRanInPlace);
      Clean(BodyRanInPlace);
      return if w.bodyRaises then BodyFailed(false, false) else Completed(false);
    }

    /** Compares the two configurations and exchanges them if they differ. */
    method SwapIfChanged(w: World, original: map<Path, Record<string>>, sha256: Bytes -> string)
      returns (ok: bool, changed: bool)
      requires Injective(sha256) && Planned() && Fits(w) && At(Checked) && live == Some(plan.original)
      requires staged == Some(plan.next) && Legible(plan.next)
      requires Legible(plan.original) && original == Snapshot(plan.original, sha256)
      modifies this`live, this`staged, this`history
      ensures changed <==> plan.next != plan.original
      ensures ok <==> !changed || Swaps(w, plan.original)
      ensures At(Reached())
      ensures ok && changed ==>
        Reached() == Exchanged && live == Some(plan.next) && staged == AtExchange(w, plan.original)
      ensures ok && !changed ==> Reached() == Checked && live == staged == Some(plan.original)
      ensures !ok ==> BeforeExchange(Reached()) && (live == Some(plan.original) || EditedTo(w, live))
    {
      SnapshotDecides(plan.next, plan.original, sha256);
      var next := TakeSnapshot(staged, true, sha256);
      changed, ok := next != Some(original), true;
      if changed {
        ok := Swap(w, original, sha256);
      }
    }

    /** All that can refuse: afterwards either the directories are exchanged, or nothing has to change. */
    method Begin(w: World, sha256: Bytes -> string) returns (ok: bool, changed: bool)
      requires Injective(sha256) && Planned() && Fits(w) && At(Begun) && live == Some(plan.original)
      modifies this`live, this`staged, this`history
      ensures ok <==> Proceeds(w, plan, CanStage())
      ensures ok ==> (changed <==> plan.next != plan.original)
      ensures At(Reached())
      ensures ok && changed ==>
        Reached() == Exchanged && live == Some(plan.next) && staged == AtExchange(w, plan.original)
      ensures ok && !changed ==> Reached() == Checked && live == staged == Some(plan.original)
      ensures !ok ==> BeforeExchange(Reached())
      ensures !ok && SERVER in plan.original ==> live == Some(plan.original) || EditedTo(w, live)
    {
      var first := TakeSnapshot(live, w.first, sha256);
      ok := Admit(w, first, live.value);
      changed := false;
      if ok {
        ok := Prepare(w, first.value, sha256);
        if ok {
          ok, changed := SwapIfChanged(w, first.value, sha256);
        }
      }
    }

    /** The whole update. */
    method Update(w: World, sha256: Bytes -> string) returns (outcome: Outcome)
      requires Injective(sha256) && Planned() && IsWorld(w) && live == Some(plan.original)
      requires At(Begun) && staged.None? && history == [Moment(Begun, live, None)]
      modifies this
      ensures Ended() && (alone <==> NoOtherEditor(w) && SERVER in plan.original)
      ensures outcome == if Proceeds(w, plan, CanStage()) then Ends(w, plan.next != plan.original) else Refused
      ensures outcome.Refused? && SERVER in plan.original ==> live == Some(plan.original) || EditedTo(w, live)
      ensures !outcome.Refused? ==> Leaves(w, plan, outcome, live)
    {
      alone := NoOtherEditor(w) && SERVER in plan.original;
      var ok, changed := Begin(w, sha256);
      if ok {
        outcome := Conclude(w, changed);
      } else {
        Clean(Reached());
        outcome := Refused;
      }
    }

    /** The startup and the end of an update that nothing refused. */
    method Conclude(w: World, changed: bool) returns (outcome: Outcome)
      requires Fits(w) && IsTree(plan.original) && At(if changed then Exchanged else Checked)
      requires changed ==>
        live == Some(plan.next) && staged == AtExchange(w, plan.original) && staged.Some? && IsTree(staged.value)
      requires !changed ==> live == staged == Some(plan.original)
      modifies this`live, this`staged, this`history
      ensures Ended() && outcome == Ends(w, changed) && Leaves(w, plan, outcome, live)
    {
      if changed {
        outcome := StartOrRestore(w);
      } else {
        outcome := StartInPlace(w);
      }
    }
  }

  /** Nothing refuses. */
  ghost predicate Proceeds(w: World, p: Plan, stageable: bool) {
    Welcome(w, p, stageable) && (p.next == p.original || Swaps(w, p.original))
  }

  /** How an update ends that was not refused. A restore takes the host's exchange and a live directory that the
      startup left in place. */
  function Ends(w: World, changed: bool): Outcome {
    if w.bodyRaises then BodyFailed(changed, changed && w.restores && !w.body.Gone?) else Completed(changed)
  }

  /** The live directory at the end of an update that was not refused: what was live before the exchange if it was
      restored, and otherwise what the startup left of the old or of the next configuration. */
  predicate Leaves(w: World, p: Plan, outcome: Outcome, live: Option<FileSystem>)
    requires !outcome.Refused?
  {
    if !outcome.changed then live == Applied(w.body, Some(p.original))
    else if outcome.BodyFailed? && outcome.restored then live == AtExchange(w, p.original)
    else live == Applied(w.body, Some(p.next))
  }
}
