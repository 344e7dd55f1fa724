# Local stand and agent: a Dafny model

This project models the parts of the repository whose promises span whole runs, loops or unbounded
inputs, and proves those promises for every input, every run or every reachable state.

| file | what it models |
|---|---|
| `Lifecycle.dfy` | launchers, their ownership records and supervisors, as a transition system with crashes, deaths, process-number reuse, groups and deadlines |
| `Launchers.dfy`, `Supervisors.dfy` | the launcher's methods and the supervisor's serving loop as code that takes the steps of that system in order |
| `ForcedRace.dfy` | one run of that system in which a forced stop leaves a member of the group alive |
| `FailedStart.dfy` | one run in which a supervisor fails to start and leaves its command running |
| `Staging.dfy`, `InstallationUpdate.dfy` | the installation update: fingerprints and staging; preflight, stop, atomic exchange, restore, cleanup; the access-ceiling rule |
| `LostGeneration.dfy` | one update that loses the old configuration |
| `PrivateTree.dfy`, `Bundles.dfy` | the bounded walk of a private tree; writing, validating and publishing a server bundle |
| `HostFiles.dfy`, `Connectors.dfy`, `IssueReaders.dfy` | installing and exporting signal connectors and Issue MCP readers |
| `CatalogText.dfy`, `CatalogLimits.dfy` | the JSON text of the two catalogs and its length; which catalogs install and cannot be exported and installed again |
| `ServerBundle.dfy`, `Retention.dfy` | generating the server bundle from its inputs; selecting inputs in an update, and what an update keeps |
| `Worker.dfy` | the agent's worker loop over a scripted environment |
| `Calibration.dfy` | calibration metrics in integer parts per million, document validation, drift and mode rules |
| `DockerContext.dfy` | the ignore-pattern compiler, rule evaluation and the `.dockerignore` validator |
| `Architecture.dfy` | the crate dependency checker and its consumer worklist |
| `Cursor.dfy` | base64url without padding, canonical cursors, credential tokens |
| `JsonPointer.dfy`, `SchemaShape.dfy` | JSON Pointer lookup; inlining of schema fragments |
| `Checksums.dfy` | the checksum inventory printer and its two verifiers |
| `Text.dfy`, `Values.dfy` | splitting, joining, decimal numerals; options and JSON values |

Conventions. SHA-256 is an arbitrary function, injective where the source relies on that; JSON and
UUID normal forms are functions with a left inverse or idempotence law, and the two catalogs' JSON is written
out where its length matters; clocks, remote answers, other
editors and what the operating system does are parameters or nondeterministic events. Source code
that loops over mutable variables is a method with a loop, proved equal to a specification function
or against a stated property; the launcher, the supervisor and the update transaction are classes whose
methods change the state they work on.

The environment of `Lifecycle.dfy` is the one the tools themselves rely on: a process number with its
start identity never comes back; a group number is not reused while the group has members; one process
listing is a moment in time; a killed process does not fork; a process may leave its group for one of
its own, and none joins a group that it was not born into (a descendant of the same session could, with
`setpgid`; the claims about sealed groups and about what a stop leaves behind rest on this); a process keeps
the user id it was born with (the listings look only at the launcher's own user, so that the same claims rest
on this too); a launcher's children are reaped by that launcher only. Steps are counted, not timed: one step
may take as long as its caller or the host makes it. Nothing is assumed about who owns the control socket's path: a request may reach any supervisor, and only its token decides.

## Where the code falls short

What the tools' own texts and documentation promise, the code does not always keep. Each line names the exact
condition that is proved, and the failing input.

- A forced stop is reported when its record is removed, but the group can then still have a member: if
  the leader ends after answering and before it kills its group, a member may fork between the
  launcher's listing and its checks. The stop is conclusive exactly when the leader killed its group first
  (`Lifecycle.ForcedIsCleanExactlyWhenSealed`); `ForcedRace.ForcedCanLeaveAMember` is a run, from the first
  launch on, that ends with a member alive.
- A supervisor that cannot open its control path exits and leaves its command running: two uncommitted
  supervisors of one name may meet at the path, or one may remove it before another has set its mode. It is the
  one way to end by itself with a group that is not sealed (`Lifecycle.StopsOnlySealed`). No program ever signals
  what it leaves (`Lifecycle.OrphansAreNeverSignalled`), and `FailedStart.FailedStartLeavesACommand` is a run that
  ends with an unlocked stand, no record, and such a command.
- An exception of the startup does not always restore the old configuration. The restoring exchange needs the
  live directory to be there: it happens exactly when the startup did not remove that directory and the host
  exchanges (`InstallationUpdate.Stand.StartOrRestore`). Otherwise the cleanup deletes what was put aside
  (`InstallationUpdate.CleanupDiscards`), and `LostGeneration.OldGenerationCanBeLost` is an update after which
  neither the old nor the next configuration exists.
- An edit of the live configuration made after the update's last look and before the exchange is not
  noticed: it is put aside and, when the startup succeeds, discarded
  (`InstallationUpdate.ExchangeIsGuarded`). An earlier edit that one of the looks finds makes the update refuse
  and is kept. An edit that is undone before the next look is not found by any; the generators read inherited
  inputs and the server's base file from the live directory between two looks, so that such an edit can reach
  the staged configuration. What they generate is a value here, and nothing is claimed of where it was read.
- Where no server bundle is installed, regenerating the old one publishes it into the live directory
  before the update refuses (`InstallationUpdate.Stand.RegenerateServer`); that the live directory is only ever
  one generation is claimed from an installed bundle on.
- Exporting installed connectors and installing the export again reproduces the bundle exactly when the
  installed catalog and the export each fit the catalog's size limit; neither is checked when it is written
  (`Connectors.ConnectorsAreRetained`). `CatalogLimits.InstalledCanOutgrow` and `CatalogLimits.ExportCanOutgrow`
  are catalogs of one connector that install and then fail.
- For Issue MCP readers (`IssueReaders.ReadersAreRetained`) the bounds on what a catalog holds make the
  installed one fit always, and the export fit exactly below a bundle path whose JSON form has at most 22,282
  characters (`CatalogLimits.RetainedExactly`). Every path of at most 4096 bytes without control characters is
  such a path (`CatalogLimits.HostPathsRetain`); one of control characters need not be
  (`CatalogLimits.ControlPathLoses`).
- The compiled `.` does not match a line break, so a `**` does not cross one. The default-deny rule covers
  exactly the paths of one line (`DockerContext.DefaultDenyCoversOneLine`), and a mandatory exclusion keeps a
  path out, whatever the allow rules say, exactly when it matches in this narrower sense
  (`DockerContext.MandatoryExclusionsHold`). A file below `target` whose name breaks a line can be included
  (`DockerContext.LineBreakEscapes`).
- The edge rules exempt the infrastructure support package from every direction check, so the layers of
  the adapters depend on that package's own role: `Architecture.SupportPackageDecides` says on exactly
  which roles they hold, and `Architecture.HarmfulSupport` builds a clean graph for every other role.
- Inlining leaves a reference behind when a schema fragment is the bare marker word:
  `SchemaShape.InlinedIsReferenceFree` is the exact condition, `SchemaShape.BareMarkSurvives` the case.
- The console packager's path rule also accepts `.`, the name of no file (`Checksums.KeptNames`).

## Model

| member | source | states |
|---|---|---|
| Lifecycle.InvStep | tools/local_stand_lifecycle.py:405-673 | every step of a launcher, a supervisor, a crash or the host keeps the invariant that ties records, tokens, commits, answers and waits to the process table |
| Lifecycle.InvReachable | tools/local_stand_lifecycle.py:237-673 | the invariant holds in every state of every run |
| Lifecycle.CommittedIsRecorded | tools/local_stand_lifecycle.py:405-540 | in every run a live committed supervisor's exact identity and token are in the record of its name, and no name has two of them |
| Lifecycle.PublishNeverCollides | tools/local_stand_lifecycle.py:405-447 | when a launcher publishes, no record of that name exists, and the record names the process it spawned |
| Lifecycle.RecordsRemove | tools/local_stand_lifecycle.py:513-528 | removing a record never unrecords a live committed supervisor |
| Lifecycle.CrashForsakes | tools/local_stand_lifecycle.py:449-511 | a launcher that crashes before sending the commit leaves a supervisor that no one can commit |
| Lifecycle.CrashedLaunchNeverCommits | tools/local_stand_supervisor.py:400-429 | and over every later run it stays uncommitted |
| Lifecycle.DeadlineBoundsSteps | tools/local_stand_supervisor.py:400-429 | past its deadline such a supervisor takes at most six more steps of its own in any run |
| Lifecycle.DeadlineNeverBlocks | tools/local_stand_supervisor.py:353-456 | and always has a step enabled while it serves, whoever connects or not; this is about steps, not time: a client that sends slowly can draw out the step that decodes its request |
| Lifecycle.StopsOnlySealed | tools/local_stand_supervisor.py:389-456 | and unless the host ends it or it fails before it listens, it goes only when nothing unkilled is left of its group |
| Lifecycle.DeadlineStopsTheGroup | tools/local_stand_supervisor.py:389-429 | over every run from a past-deadline, uncommitted and forsaken supervisor: once it has stopped serving, the host ended it, or it was still starting and failed to, or its group is sealed |
| Lifecycle.OrphansAreNeverSignalled | tools/local_stand_supervisor.py:389-456 | in every run, no program signals what is left of the group of a supervisor that is gone |
| FailedStart.OrphanIsNeverStopped | tools/local_stand_supervisor.py:389-456 | over every later run in which it neither ends nor leaves its group, it stays there and nothing signals it |
| FailedStart.FailedStartLeavesACommand | tools/local_stand_supervisor.py:389-407 | a run from the first launch on ends with the lock free, no record, and the command of a failed supervisor alive and beyond every program's reach |
| Lifecycle.SignalsStayHome | tools/local_stand_supervisor.py:243-298 | a group signal comes from the live leader and reaches only it and its descendants in its group, however numbers were reused |
| Lifecycle.LaunchersSignalOnlyTheirChild | tools/local_stand_supervisor.py:59-65 | in every run a launcher signals only the number of the child it spawned and has not reaped, which is that very child or nobody; the child is uncommitted and unrecorded, so no number comes from a record |
| Lifecycle.SignalsReachOnlyOwnProcesses | tools/local_stand_supervisor.py:229-240 | no signal of a launcher or a supervisor ever reaches a process outside the group of the supervisor it spawned or is |
| Lifecycle.DeadStaysDead | tools/local_stand_lifecycle.py:402-403 | an identity that is no longer reported is never reported again, with any reuse of its number |
| Lifecycle.SealedStays | tools/local_stand_supervisor.py:430-444 | a group whose remaining members are all killed stays that way through every event of a host on which none joins another's group |
| Lifecycle.WaitsAnswered | tools/local_stand_lifecycle.py:625-673 | an answer is attributed only to the supervisor whose token the record holds |
| Lifecycle.GracefulLeavesNobody | tools/local_stand_lifecycle.py:561-673 | when a graceful stop removes the record, no process of the group is alive, none having joined it from outside |
| Lifecycle.SealedRemovalIsClean | tools/local_stand_lifecycle.py:561-673 | when a stop of a sealed group removes the record, no process of the group is alive, under the same assumption |
| Lifecycle.ForcedIsCleanExactlyWhenSealed | tools/local_stand_lifecycle.py:561-673 | after a forced answer and the leader's death, every continuation removes the record of an empty group if and only if the leader killed its group |
| Lifecycle.ForkRace | tools/local_stand_lifecycle.py:561-589 | otherwise a run exists that removes the record with a member alive |
| ForcedRace.ForcedCanLeaveAMember | tools/local_stand_supervisor.py:436-444 | a run from the first launch on reaches such a state and removes the record of a forced stop with a member alive |
| Launchers.LifecycleState.ShutDown | tools/local_stand_lifecycle.py:625-673 | whatever others do in between, the call is part of a run of the system; a stop that is not an error removes exactly its record, with the recorded process gone; a graceful one leaves no process of the group, nor does a forced one of a killed group; an error keeps the record |
| Launchers.LifecycleState.StopRecorded | tools/local_stand_lifecycle.py:641-673 | the same from the loaded record on, as rollback also uses it |
| Launchers.LifecycleState.WaitForExit | tools/local_stand_lifecycle.py:561-589 | the polling loop is part of a run of the system and ends ready to remove the record as stopped, or gives up with every record in place |
| Launchers.LifecycleState.CheckListed | tools/local_stand_lifecycle.py:574-585 | looks at the listed processes one by one and concludes, or goes back to waiting, with every record in place |
| Launchers.LifecycleState.RemoveRecord | tools/local_stand_lifecycle.py:513-528 | unlinks exactly the record the launcher loaded, whose process is gone |
| Launchers.LifecycleState.ReconcileBeforeStart | tools/local_stand_lifecycle.py:530-540 | startable exactly without a record; running only with the exact process; repaired only with it gone, and then only its record removed |
| Launchers.LifecycleState.ClearTheName | tools/local_stand_lifecycle.py:459-463 | a launch goes on only with no record of its name, and is refused only for a running exact process |
| Launchers.LifecycleState.WriteProcessRecord | tools/local_stand_lifecycle.py:405-447 | publishes one record under the name and token of the spawned supervisor, or leaves the records as they were |
| Launchers.LifecycleState.CommitOrRollBack | tools/local_stand_lifecycle.py:484-511 | succeeds only with a committed supervisor behind the record; otherwise stops the record |
| Launchers.LifecycleState.LaunchCommand | tools/local_stand_lifecycle.py:449-511 | a successful launch leaves a record of a committed supervisor; no other name's record changes in any case |
| Launchers.LifecycleState.Enter | tools/local_stand_lifecycle.py:250-271 | the lock is taken exactly when no launcher holds it |
| Launchers.StopIsClean | tools/local_stand_lifecycle.py:668-673 | at the end of a successful wait nobody of a sealed group is left, and a graceful answer means a sealed group |
| Launchers.CommitIsTrue | tools/local_stand_lifecycle.py:484-486 | a commit answer under the record's token means that the recorded supervisor committed |
| Supervisors.Supervisor.StartUp | tools/local_stand_supervisor.py:389-407 | enters the loop exactly by starting the command and opening the control path; a failure of either ends the supervisor before it listens |
| Supervisors.Supervisor.Serve | tools/local_stand_supervisor.py:400-449 | the loop ends by itself only with its group sealed, whatever others do in between |
| Supervisors.Supervisor.ServeRound | tools/local_stand_supervisor.py:408-449 | one round; past the deadline an uncommitted supervisor never serves on |
| Supervisors.Supervisor.EndGroup | tools/local_stand_supervisor.py:285-298 | leaves an empty group or kills it; returns to serving only when its caller is gone |
| Supervisors.KillSeals | tools/local_stand_supervisor.py:436-443 | a group kill by the live leader reaches every descendant in its group |
| Staging.SnapshotDecides | tools/local_stand_installation_update.py:83-114 | two legible configurations have the same fingerprint exactly when they are equal |
| Staging.TakeSnapshot | tools/local_stand_installation_update.py:83-114 | a directory has a fingerprint exactly when it is there, within the bounds, and no read fails |
| Staging.Stage | tools/local_stand_installation_update.py:219-241 | staging succeeds exactly when the copy can be stripped and the integration suffix is recognized, and its result is a tree |
| Staging.NextMeets | tools/local_stand_installation_update.py:219-241 | each name of the staged configuration has the contents of its owner: the generated bundle, the generated agent files, the moved integration or the copy |
| Staging.Strip | tools/local_stand_installation_update.py:221-223 | removes the generated parts and nothing else, exactly when they are there |
| Staging.Rebase | tools/local_stand_installation_update.py:231-238 | moves a recognized integration suffix to the new base file |
| Staging.NextIsUnique | tools/local_stand_installation_update.py:219-241 | the staged configuration is determined by the copy and what was generated |
| Staging.SuffixSurvives | tools/local_stand_installation_update.py:231-238 | the next update recognizes the suffix that this one moved |
| Staging.RepeatChangesNothing | tools/local_stand_installation_update.py:219-245 | repeating an update with the same inputs stages what is already live |
| InstallationUpdate.AccessDeclarations | tools/local_stand_installation_update.py:151-165 | collects exactly the permissions declared for each exact reference |
| InstallationUpdate.CheckCeilings | tools/local_stand_installation_update.py:205-209 | accepts exactly when no reference declared by both catalogs changes what it grants |
| InstallationUpdate.LiveIsAlwaysWhole | tools/local_stand_installation_update.py:191-260 | with no other editor, at every moment and so after a crash at any moment the live directory is wholly the old or the next generation, with the other one kept beside it |
| InstallationUpdate.StopIsGuarded | tools/local_stand_installation_update.py:242-251 | services are stopped only after the preflight passed, then the live configuration was found unchanged, then the exchange was probed |
| InstallationUpdate.ExchangeIsGuarded | tools/local_stand_installation_update.py:251-254 | an exchange follows the stop and a last look that found the original; it puts aside what was live just before |
| InstallationUpdate.StagedIsNext | tools/local_stand_installation_update.py:224-254 | once staged, the directory holds the original copy and what was generated, put together, until the exchange, whoever edits the live one; what was generated is taken as given |
| InstallationUpdate.RestoreIsExact | tools/local_stand_installation_update.py:254-260 | a restore that happens brings back what the exchange put aside, whatever the body did to the live directory |
| InstallationUpdate.PutAsideIsKept | tools/local_stand_installation_update.py:254-260 | from the exchange until a restore or the cleanup, what was put aside is on disk |
| InstallationUpdate.CleanupDiscards | tools/local_stand_installation_update.py:202-260 | a cleanup without a restore discards it: only what the body left is on disk |
| InstallationUpdate.NothingStoppedInVain | tools/local_stand_installation_update.py:245-260 | an update that changes nothing stops and exchanges nothing |
| InstallationUpdate.Stand.Exchange | tools/local_stand_installation_update.py:66-80 | both directories change places in one step, exactly when both are there and the host exchanges; otherwise nothing changes |
| InstallationUpdate.Stand.RegenerateServer | tools/local_stand_installation_update.py:210-211 | verifies an installed bundle without touching it; publishes only where none is installed; fails when the generator does |
| InstallationUpdate.Stand.Prepare | tools/local_stand_installation_update.py:191-245 | reaches the second look exactly when all checks pass and every look finds the original; otherwise leaves what others left |
| InstallationUpdate.Stand.Swap | tools/local_stand_installation_update.py:246-254 | exchanges exactly when the probe, the stop, the last look and the exchange itself succeed |
| InstallationUpdate.Stand.StartOrRestore | tools/local_stand_installation_update.py:255-260 | after an exchange, an exception of the body restores what was put aside if and only if the body left the live directory in place and the host exchanges; otherwise the live directory is what the body left |
| InstallationUpdate.Stand.Update | tools/local_stand_installation_update.py:168-260 | keeps the protocol on every path, the cleanup included; refuses exactly when a check or a look fails; gives the outcome and the live directory in every case, a failed restore included |
| LostGeneration.OldGenerationCanBeLost | tools/local_stand_installation_update.py:202-260 | one update whose body removes the live directory and raises: at its end neither configuration exists |
| PrivateTree.MapPrivateTree | tools/local_stand_state.py:192-239 | succeeds exactly on the trees within the depth, entry, byte, name and size bounds, and lists every entry once with its contents, a directory before what it holds |
| PrivateTree.ListDirectory | tools/local_stand_state.py:216-238 | lists one directory whole, or the tree is not admissible |
| PrivateTree.AllListed | tools/local_stand_state.py:210-239 | an empty stack means that every entry was listed |
| PrivateTree.SpelledApart | tools/local_stand_state.py:217-222 | two listed paths are spelled alike only if they are the same |
| Bundles.ValidateExisting | tools/configure_local_stand_server.py:372-399 | accepts exactly the directory that holds the expected entries and no other, none of them empty |
| Bundles.StandsExactly | tools/configure_local_stand_server.py:372-399 | entry by entry validation finds every missing, unexpected or different entry |
| Bundles.NeverMissing | tools/configure_local_stand_server.py:411-417 | each entry is written into a directory that an earlier entry made |
| Bundles.PublishBundle | tools/configure_local_stand_server.py:402-427 | a success leaves exactly the expected entries in place; an existing or rival bundle is never changed |
| Bundles.PublishAgain | tools/configure_local_stand_server.py:402-427 | publishing the same entries twice succeeds, whoever else publishes, and the second time changes nothing |
| Bundles.ExecutableBundle | tools/configure_local_stand_server.py:355-369 | gives the entries of exactly the admissible installations, ready to be published |
| Bundles.PublishedIsTheInstallation | tools/configure_local_stand_server.py:355-427 | what is published below the name is the installation that was read, entry for entry |
| Bundles.ClosedTogether | tools/configure_local_stand_server.py:471-489 | bundles under different names can be published together |
| Connectors.ConnectorBundle | tools/configure_local_stand_server.py:317-352 | installs exactly the usable catalogs of at most 64 connectors, with numbered copies and rewritten references |
| Connectors.ExportConnectors | tools/configure_local_stand_server.py:294-314 | exports exactly the recognized catalogs, pointing into the bundle |
| Connectors.ConnectorNamesApart | tools/configure_local_stand_server.py:191-195 | no two files of a bundle share a name |
| Connectors.ConnectorsAreRetained | tools/configure_local_stand_server.py:294-352 | exporting an installed bundle to a new file and installing that reproduces every file byte for byte if and only if the installed catalog and the export each fit the size limit; otherwise it is refused |
| CatalogLimits.InstalledCanOutgrow | tools/configure_local_stand_server.py:317-352 | a catalog, in JSON, that installs on a host and whose installed form cannot be exported there |
| CatalogLimits.ExportCanOutgrow | tools/configure_local_stand_server.py:294-352 | a catalog, in JSON, that installs and is exported, and whose export does not install |
| Connectors.InstalledIsExported | tools/configure_local_stand_server.py:294-314 | the exporter recognizes what installation wrote, and reads it exactly when it fits the limit |
| IssueReaders.IssueMcpBundle | tools/configure_local_stand_server.py:227-271 | installs exactly the valid catalogs of at most 128 readers with identities and scopes in normal form |
| IssueReaders.ExportReaders | tools/configure_local_stand_server.py:274-291 | exports exactly the recognized catalogs, pointing into the bundle |
| IssueReaders.ReadersAreRetained | tools/configure_local_stand_server.py:227-291 | exporting installed readers to a new file and installing that reproduces readers and files if and only if the installed catalog and the export each fit the size limit; otherwise it is refused |
| CatalogText.ReadersJsonOnce | tools/configure_local_stand_server.py:258-267 | two catalogs of readers have the same JSON text only if they are the same |
| CatalogText.ConnectorsJsonOnce | tools/configure_local_stand_server.py:317-352 | the same of connectors |
| CatalogText.EscapeCharFirst | tools/configure_local_stand_server.py:267 | the escape of one character is never the beginning of another's, surrogate pairs included |
| CatalogLimits.CatalogAtMost | tools/configure_local_stand_server.py:227-271 | the JSON of a catalog of installed readers is at most 1,337,755 characters long, with 128 times its longest reference |
| CatalogLimits.RetainedExactly | tools/configure_local_stand_server.py:227-291 | every catalog of readers survives export and installation if and only if the JSON form of the bundle's path has at most 22,282 characters |
| CatalogLimits.HostPathsRetain | tools/configure_local_stand_server.py:227-291 | so it does below every path of at most 4096 bytes without control characters |
| CatalogLimits.ControlPathLoses | tools/configure_local_stand_server.py:227-291 | and below one path of 3765 bytes, made of control characters, the largest catalog does not |
| CatalogLimits.JsonFormsExist | tools/configure_local_stand_server.py:227-291 | there is a reading of such JSON and of UUIDs with the laws assumed of them |
| IssueReaders.InstalledIsExported | tools/configure_local_stand_server.py:274-291 | the exporter recognizes what installation wrote, and reads it exactly when it fits the limit |
| IssueReaders.ScopeIsStable | tools/configure_local_stand_server.py:260-264 | a scope in normal form is installed as it is |
| ServerBundle.GenerateServer | tools/configure_local_stand_server.py:430-496 | accepts exactly the valid inputs, and publishes a bundle that holds the rendered server file, the two other fixed files and what each input contributes, and nothing else |
| ServerBundle.OneBundle | tools/configure_local_stand_server.py:430-496 | the same inputs generate the same bundle, entry for entry |
| ServerBundle.PlainFiles | tools/configure_local_stand_server.py:464-483 | the plain files of the inputs are put together without getting in each other's way |
| Retention.InstalledInputs | tools/local_stand_installation_update.py:117-133 | the installed inputs are the files and directories of the bundle and the two exports; an unrecognized catalog is an error |
| Retention.NextBundle | tools/local_stand_installation_update.py:204-230 | there is a next bundle exactly when both catalogs are recognized and every selected input is valid |
| Retention.InheritsExactly | tools/local_stand_installation_update.py:117-133 | the catalogs of an installed bundle are recognized if and only if each fits the size limit |
| Retention.OmittedAreAccepted | tools/local_stand_installation_update.py:224-230 | from an installed bundle whose catalogs are recognized, an update is accepted if and only if what it was given is, and the exports of omitted connectors and readers fit the size limit |
| Retention.ConnectorPartNext | tools/local_stand_installation_update.py:117-133 | omitted connectors are read again as they were installed, if and only if their export fits |
| Retention.ReaderPartNext | tools/local_stand_installation_update.py:117-133 | the same of Issue MCP readers |
| Retention.ReaderExportsFit | tools/local_stand_installation_update.py:117-133 | whose export always fits, below every path whose JSON form has at most 22,282 characters |
| Retention.BundleIsGenerated | tools/local_stand_installation_update.py:224-238 | what the generator publishes can be staged: the server's file is in it |
| Retention.ConnectorsStay | tools/local_stand_installation_update.py:224-230 | an update without connectors of its own keeps the installed ones byte for byte, and has none where none were installed |
| Retention.ReadersStay | tools/local_stand_installation_update.py:224-230 | the same of Issue MCP readers |
| Retention.DeliveryStays | tools/local_stand_installation_update.py:224-230 | the same of the delivery installation, entry for entry |
| Retention.RuntimeStays | tools/local_stand_installation_update.py:224-230 | the same of the runtime installation, entry for entry |
| Retention.VcsStays | tools/local_stand_installation_update.py:224-230 | the same of the VCS catalog |
| Retention.OmittedInputsAreRetained | tools/local_stand_installation_update.py:117-133 | in the configuration that an update stages, every file of an input it was not given is the installed one, byte for byte, and what was not installed stays absent |
| Worker.RunLoaded | agent/octacity-agent/src/app.rs:63-139 | the worker recovers, registers and serves as the run function says, for every environment |
| Worker.Recover | agent/octacity-agent/src/app.rs:67-93 | recovers and registers in order, up to the first step that fails |
| Worker.TakeTurn | agent/octacity-agent/src/app.rs:95-138 | one turn: capacity check, shutdown check, poll, answer |
| Worker.HandleLifecycleResult | agent/octacity-agent/src/app.rs:165-189 | goes on exactly after a job completed without a drain or a lost lease whose state was removed, stops exactly on a drain or at shutdown, and removes retained state exactly for a lost lease before going on |
| Worker.RepollDelay | agent/octacity-agent/src/app.rs:143-154 | the least delay that honours the retry floor and, without room, the disk-check interval |
| Worker.EveryRunKeeps | agent/octacity-agent/src/app.rs:63-189 | in every run: polls only after orphan cleanup, attempt cleanup and registration; at most one lease and none while polling; lost state removed before the next poll; nothing after a drain; at most one poll begun after shutdown; checks spaced as promised |
| Worker.FullAgentWaits | agent/octacity-agent/src/app.rs:115-126 | a full agent that found no work checks its disk again no sooner than the interval after the last check began |
| Worker.EveryEndHasACause | agent/octacity-agent/src/app.rs:95-189 | a worker stops without error only after a shutdown request or a drain, and always on a drain |
| Calibration.ExpectedError | tools/factory_signal_calibration.py:167-188 | the dictionary of ten bins gives the sum of absolute bin totals |
| Calibration.Summarize | tools/factory_signal_calibration.py:153-191 | the loops over cases, observations and bins compute the metrics |
| Calibration.CollectSamples | tools/factory_signal_calibration.py:156-157 | one loop keeps the completed cases with what was observed of them |
| Calibration.Sums | tools/factory_signal_calibration.py:158-166 | one loop adds up hits, confidences, departures and squared errors |
| Calibration.SortLatencies | tools/factory_signal_calibration.py:173 | the latencies of all cases in ascending order |
| Calibration.RatesAreShares | tools/factory_signal_calibration.py:174-191 | completed, accuracy, disagreement, baseline accuracy and failure rate are numbers of cases, as shares rounded down to parts per million |
| Calibration.MetricsInRange | tools/factory_signal_calibration.py:153-191 | every parts-per-million metric lies in [0, SCALE], despite all the floors |
| Calibration.GapWithinError | tools/factory_signal_calibration.py:153-191 | calibration gap <= expected calibration error + 1 |
| Calibration.ErrorWithinBrier | tools/factory_signal_calibration.py:153-191 | (expected calibration error)^2 < SCALE * (Brier score + 1) |
| Calibration.BucketsAddUp | tools/factory_signal_calibration.py:167-172 | every observation falls into one of the ten bins, so their totals add up to the whole |
| Calibration.NearestRank | tools/factory_signal_calibration.py:173-190 | p95 is the nearest rank: at least 95% of the samples at or below it, fewer than 95% strictly below |
| Calibration.ValidateEntries | tools/factory_signal_calibration.py:123-150 | accepts exactly entries with known, distinct cases, distinct receipts and consistent fields |
| Calibration.Validate | tools/factory_signal_calibration.py:107-151 | accepts exactly the valid documents of the corpus, bindings included |
| Calibration.ValidateBindings | tools/factory_signal_calibration.py:115-122 | accepts exactly bindings of both purposes to the six roles, each reference identified, digested and not of a floating version |
| Calibration.EveryCaseObserved | tools/factory_signal_calibration.py:107-151 | a valid document has exactly one usable observation for every case |
| Calibration.WrittenIsSound | tools/factory_signal_calibration.py:194-308 | every report that is written satisfies what a later run requires of its figures |
| Calibration.WrittenReportsAreAccepted | tools/factory_signal_calibration.py:217-272 | a written report is accepted as previous of a later run over the same corpus if and only if bindings and source kind agree and the mode does not go back |
| Calibration.ShadowThenAdvisory | tools/factory_signal_calibration.py:217-308 | along every chain the modes are a nonempty block of shadow followed by a block of advisory |
| Calibration.ChainsGoOn | tools/factory_signal_calibration.py:217-308 | any chain of written reports can be continued with any valid document, exactly when bindings and source kind stay and the mode does not go back |
| DockerContext.GlobRegex | tools/verify_local_stand_context.py:180-201 | the compiling loop emits the pieces of the pattern |
| DockerContext.CompiledMatches | tools/verify_local_stand_context.py:180-210 | on every path the compiled expression accepts exactly what the pattern matches, where a `**` crosses no line break |
| DockerContext.CompiledMeansPattern | tools/verify_local_stand_context.py:180-210 | on every path without a line break it accepts exactly what the pattern means |
| DockerContext.PathState | tools/verify_local_stand_context.py:213-218 | the last matching rule decides |
| DockerContext.DockerPathIncluded | tools/verify_local_stand_context.py:221-231 | a path is included exactly when its ancestors and the path itself are, and refused when it is not relative and normalized |
| DockerContext.ValidateDockerignore | tools/verify_local_stand_context.py:160-177 | accepts exactly the rule lists with default deny first and the mandatory exclusions after every allow rule |
| DockerContext.ActiveDockerRules | tools/verify_local_stand_context.py:154-157 | the loop keeps the stripped lines that are neither blank nor comments |
| DockerContext.ActiveAreLines | tools/verify_local_stand_context.py:154-157 | the active rules are exactly those lines, none blank at an end, a comment or with a line break |
| DockerContext.RulesOfAFile | tools/verify_local_stand_context.py:154-157 | no rule that is read from a file is empty, a comment or breaks a line, so that line breaks come from paths only |
| DockerContext.ValidateFile | tools/verify_local_stand_context.py:160-177 | gives the rules of a file exactly when they pass |
| DockerContext.MandatoryDenies | tools/verify_local_stand_context.py:160-218 | no allow rule of an accepted list re-admits what a mandatory exclusion matches, on any path |
| DockerContext.MandatoryExclusionsHold | tools/verify_local_stand_context.py:160-231 | every accepted list keeps a path out if and only if a mandatory exclusion matches it or a directory above it |
| DockerContext.BuildOutputNeverIncluded | tools/verify_local_stand_context.py:160-231 | nothing below a `target` or `node_modules` directory at any depth is included, as long as no name on the way breaks a line |
| DockerContext.LineBreakEscapes | tools/verify_local_stand_context.py:160-231 | a file below `target` whose name breaks a line is meant by the exclusion and included by an accepted list |
| DockerContext.DefaultDenyCoversOneLine | tools/verify_local_stand_context.py:180-210 | the default-deny rule matches a path exactly when it has no line break |
| Architecture.ActualProductConsumers | tools/check_architecture.py:580-598 | terminates on every graph and returns exactly the product areas of the packages that reach the shared one over one or more edges |
| Architecture.OwnershipIsBroken | tools/check_architecture.py:615-648 | decides the shared-ownership rule |
| Architecture.CheckPackage | tools/check_architecture.py:600-648 | reports exactly the unknown-layer, composition-root and shared-ownership violations of a package |
| Architecture.Check | tools/check_architecture.py:576-746 | reports exactly the broken layer, composition, ownership and edge rules of every package and every edge |
| Architecture.SharedDeclaresItsConsumers | tools/check_architecture.py:580-648 | in a clean graph an active shared package declares exactly its transitive consumers, at least two |
| Architecture.LayersHoldTransitively | tools/check_architecture.py:18-40 | in a clean graph, over paths of any length, agent packages reach only agent and shared, core only core and shared, and so on |
| Architecture.AdaptersAreSelectedOnce | tools/check_architecture.py:715-746 | only composition, test and infrastructure packages ever reach infrastructure |
| Architecture.SupportPackageDecides | tools/check_architecture.py:715-746 | adapters stay in their layers in every clean graph if and only if the support package has one of the harmless roles |
| Architecture.HarmfulSupport | tools/check_architecture.py:715-746 | for every other role a clean graph exists in which an adapter reaches it |
| Cursor.DecodeEncode | server/application/src/opaque_cursor.rs:11-23 | decoding undoes encoding, for byte strings of every length |
| Cursor.EncodeDecode | server/application/src/opaque_cursor.rs:11-14 | a string that decodes is the one encoding of its bytes |
| Cursor.SameNumber | server/application/src/opaque_cursor.rs:22-24 | three bytes and their four sextets are the same number in base 256 and base 64 |
| Cursor.CursorsAreCanonical | server/application/src/opaque_cursor.rs:4-24 | a cursor decodes to a value if and only if it is that value's encoding and within the limit |
| Cursor.CursorsAreUnique | server/application/src/opaque_cursor.rs:4-24 | no two accepted cursors share a value |
| Cursor.SecretsAreEncodings | tools/bootstrap_local_stand.py:382-394 | the accepted secrets are exactly the encodings of 32-byte strings |
| Cursor.AcceptedTokenHasForm | tools/bootstrap_local_stand.py:370-395 | an accepted credential is a kind, an identity and an encoded secret |
| Cursor.FormedTokenIsAccepted | tools/bootstrap_local_stand.py:370-395 | and every credential of that form is accepted, with or without a final newline |
| JsonPointer.Pointer | tools/factory_verification_probe.py:62-77 | the loop finds what the lookup finds |
| JsonPointer.TwoPassesAreOne | tools/factory_verification_probe.py:68-70 | replacing `~1` and then `~0` equals decoding in one pass on every well-escaped component |
| JsonPointer.UnescapeEscape | tools/factory_verification_probe.py:68-70 | unescaping undoes escaping for every key |
| JsonPointer.EscapeUnescape | tools/factory_verification_probe.py:68-70 | and escaping undoes unescaping on well-escaped components |
| JsonPointer.SpelledPathsResolve | tools/factory_verification_probe.py:62-77 | for every list of keys and indices the escaped pointer resolves to the value it names |
| JsonPointer.LookupsAreSpelledPaths | tools/factory_verification_probe.py:62-77 | and a pointer finds only what a path it spells names |
| SchemaShape.ShapeSucceedsExactly | tools/factory_stand_flow.py:24-34 | inlining succeeds if and only if all aliases exist and the full unfolding, cycles included, is at most 64 hops high |
| SchemaShape.ShapeKeepsNodes | tools/factory_stand_flow.py:24-34 | what the original leads to with references followed, the result holds at the same path |
| SchemaShape.ShapeAddsNothing | tools/factory_stand_flow.py:24-34 | and the result holds nothing else |
| SchemaShape.InlinedIsReferenceFree | tools/factory_stand_flow.py:24-34 | results are free of references if and only if no fragment is the bare marker word |
| SchemaShape.BareMarkSurvives | tools/factory_stand_flow.py:24-34 | with such a fragment a reference survives |
| Checksums.ReadInventory | tools/package_console_release.py:397-411 | the loop reads an inventory line by line, refusing bad digests, unsafe, repeated and reserved names |
| Checksums.VerifyConsole | tools/package_console_release.py:397-417 | accepts a file set if and only if the inventory lists exactly its names and digests |
| Checksums.VerifyNative | tools/stage_local_stand_native.py:274-315 | the same within the size and count limits, the empty set refused |
| Checksums.InventoryRoundTrip | tools/release_packaging.py:96-99 | parsing the printed inventory gives back exactly the name-to-digest map |
| Checksums.VerifiedExactlyWhenEqual | tools/release_packaging.py:96-99 | a verifier accepts a file set against another's inventory if and only if names and digests are equal |
| Checksums.KeptNames | tools/stage_local_stand_native.py:263-271 | the stager keeps every file name as it is; the packager all but those with a backslash, and `.` |

## Left out

- Timers of the launcher's waits and of the supervisor's group stops appear as a number of looks before giving up, and what a caller reads before its time-out as a parameter; readiness probing (`wait_until_ready`) is only the compare-and-remove it shares with the others. A crash of a launcher is an event of the transition system, not of the class.
- Platform process inspection, socket framing and request decoding, log files, and user changes of a running process.
- File modes beyond executable or private, ownership, symbolic and hard links: the entries are assumed to pass those checks. Files that change while they are being read are not modelled.
- Exact JSON, TOML and tar byte formats, and SHA-256 itself.
- Checksums.VerifyNative: the size of the inventory file is a parameter, because texts are characters here and not their UTF-8 bytes.
- Calibration.Validate: takes the document as parsed; closed JSON objects, file loading and the rendering of the report are not modelled.
- Architecture.Check: does not model the external-dependency rules, the source scanners (`check_factory_core_sources`, `_production_rust_source` and their like) or the sorting of violations, which would only add separate textual checks; package names are unique, as Cargo makes them.
- DockerContext.ValidateFile: the staging allowlist and archive identities beside it are not modelled.
- Cursor.FormedTokenIsAccepted: credentials are taken as ASCII text; the decoding of other bytes is not modelled.
- The probe's HTTP exchange, response limits and `_json_equal`; the flow draft around `_shape`.
- InstallationUpdate.Stand.Update: takes the generated bundle and agent files as values, and the verdicts of the agent's generator and of the packaged validator as parameters; the bundle is what `ServerBundle.dfy` generates. Copying credentials into staging is not shown.
- InstallationUpdate.Stand.RegenerateServer: the live directory with a bundle published in it is a parameter, because nothing is claimed of it but that the update then refuses.
- ServerBundle.GenerateServer: the text of the rendered server configuration and its rows are functions of the inputs; native policy and manifest verification is not modelled.
- HTTP transports, TLS, Docker and Compose commands, the release download and image scripts, the user interface, and the server and agent crates other than the two files named above.
