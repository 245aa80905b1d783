# akropolis: a model of the orchestrator and proofs about it

akropolis drives a fleet of nodes through a strict sequence of gated, fallible, resumable steps. This
project models the steps that matter when something goes wrong half way, and proves what holds at every
point of every run. `dafny verify dfyconfig.toml` checks all of it.

A remote command is a step whose outcome comes from an unbounded oracle: it succeeds, it fails, or nothing
more is heard of it (the call raised, or the process died), in which case its effect is left open too. A
prompt is an arbitrary input. A save of the state file completes, raises, or ends the process before, in the
middle of, or after the replacement. Fleets have any number of nodes. The procedures of the source that change state
appear as methods that do it step by step, each proved equal to a function of the state before; the results are
lemmas about those functions: what holds at every step of every run, and, over the answers alone, when a run goes
through, where it stops, and what it leaves.

## Files

| file | what it holds |
|---|---|
| World.dfy | nodes, database, commands and their effects, the operator process and its trace, health gates |
| Rollout.dfy, RolloutProofs.dfy | the authentik phase: rendering, rolling update, bootstrap |
| Restore.dfy, RestoreProofs.dfy | the restore phase: stop, upload, drop, load, re-own, bring back |
| Campaign.dfy | what both keep at every step; any sequence of them, each failing or dying anywhere |
| Outcomes.dfy | when they go through and where they stop, told from the answers of the commands |
| Witnesses.dfy | when the phases go wrong: the exact conditions, and runs that show it |
| StateFile.dfy | the state file and generated-once values |
| Runner.dfy, Lifecycle.dfy | the phase runner, `provision`, `status`, `shutdown` and `start` |
| Firewall.dfy, Publication.dfy | the DOCKER-USER script and what it decides; who reaches PostgreSQL |
| Reconcile.dfy | ldap-reconcile under interference |
| TlsAcme.dfy, AcmeProofs.dfy | the pending flag between tls and nginx-keepalived, and finalisation |
| AcmeOutcomes.dfy | what those two phases do when their commands work, and where they stop when not |
| Patroni.dfy, Haproxy.dfy | the staggered start; the three-way restart decision |
| DumpFilter.dfy, Changelog.dfy, Validator.dfy, Remote.dfy, Email.dfy | the self-contained pieces |

## Where the code does not keep what one would expect

Each of these is a lemma; where the code does meet the property, the exact condition is proved beside it.

- A failed restart in a rolling update leaves the files on every node; every later rolling apply finds them
  unchanged and skips the nodes the failed one did not reach, which go on running the old files
  (`Witnesses.UnreachedNodesStayStale`; exact condition, for any fleet and any names, `RolloutProofs.RollingConverges`).
- `changed` is keyed by node name, and the loader does not keep names apart: of the nodes of one name the last
  decides for all (`RolloutProofs.RollingConverges`; on any config the loader accepts,
  `Witnesses.SharedNameHidesAChange`).
- The pair gate passes when one of the two containers does not exist (`World.GateMeansBothHealthy`).
- README.md:424 and akropolis/phases/restore_phase.py:268-270 promise never to be half-up on half-data. But the
  load's exit code is psql's alone, so a compressed dump that breaks off, a line of data that the filter deletes,
  and a reader that is killed or missing go unnoticed; and an authentik apply does not look at the database at all.
  `Witnesses.HalfUpExactly` says over every run exactly when something is started on less than the dump,
  `Witnesses.RestoreOfFileExactly` in terms of the dump file, and `Witnesses.NothingElseStopsIt` that with every command
  succeeding nothing but the data decides. What does hold of every restore is `Campaign.RestoresStartOnOwned` and,
  of every run, `Campaign.DropsAreGuarded`.
- Once the dump is on the node, a call lost at chmod or at the digest leaves it there, and so does a failed drop, a
  load never heard of again, and a removal that fails (`Witnesses.DumpGoneExactly`, an if-and-only-if).
- `--only` bypasses the done-skip without marking the phase pending, so a death in it leaves a stale done
  (`Runner.OnlyKeepsTheRecord`, an if-and-only-if), and for tls an unannounced placeholder
  (`AcmeProofs.OnlyKeepsTheFlag`, an if-and-only-if).
- A value whose save raised stays in memory: handed out again, it disagrees with what a later process generates,
  exactly if it is not on file (`StateFile.AgreementNeedsTheFile`). No caller does that: each lets the exception end
  the phase, and then everything agrees (`StateFile.HandledGeneratesOnce`).
- The backup question pins two keys, and counts as answered by the first. An answer "localhost" whose first save
  raises while the mark of the failed phase then saves what there is, or whose second pin reaches the file neither
  way, has become "no" for good (`Publication.PromptSticks`, an if-and-only-if; `Publication.FirstKeptDecides`).
- The firewall script stops at the first command that fails, and the base phase only records that: before its drop
  is in, PostgreSQL is open as far as the rules not yet deleted let it; after, to the last sources of the list only
  (`Firewall.ScriptedMeaning`, `Publication.PublicationIsCoherent`).
- The tls phase reloads nginx only where it wrote new bytes, and records a reload that fails; no later tls apply makes
  up for it (`AcmeProofs.MissedReloadStays`; which nodes serve, `AcmeProofs.TlsApplyGives`).
- In ldap-reconcile the comparison and the save are two statements, so a value the operator never saw can be
  overwritten in between (`Reconcile.SwapIsGuarded` says exactly when); and the re-read is by username across
  sources, so a namesake nobody confirmed fails the command (`Reconcile.UnconfirmedNamesakeFails`; exactly when,
  `Reconcile.UndisturbedRun`).
- Once the pending flag is cleared, replaying nginx-keepalived alone does nothing for the certificate, although
  README.md:370 and akropolis/phases/nginx_keepalived_phase.py:327-329 advise it
  (`AcmeProofs.NginxAloneFinalisesIffPending`; taking tls too does, `AcmeProofs.TakingBothFinalises`). If the
  issuer of the existing certificate cannot be read, the wrong CA's lineage is kept and deployed
  (`AcmeProofs.FinalisedServes`, an if-and-only-if).
- The filter that strips unknown settings covers the whole dump, not its header, and knows one spelling only
  (`DumpFilter.DataUntouched`, `DumpFilter.DeletedLines`).
- A reload of haproxy that fails is never made up for (`Haproxy.FailedReloadStays`).
- An SMTP port that is not a number is pinned before it is read as one, and then fails every later apply
  (`Email.RaisedForEver`; when a call raises at all, `Email.RaisesExactly`, an if-and-only-if).

## Model

| member | source | states |
|---|---|---|
| World.GateMeansBothHealthy | akropolis/phases/authentik_phase.py:59-67 | the pair gate passes whenever both containers are healthy, means that exactly where both exist, and passes with the server absent |
| World.Operator.Issue | akropolis/sshexec.py:63-91 | one command: its effect on the fleet, what the caller learns, one more step on the trace |
| World.Operator.WaitHealthy | akropolis/phases/authentik_phase.py:105-136 | polls until the gate opens, the deadline passes or a poll raises; equals the gate function |
| Rollout.DoAllRunning | akropolis/phases/authentik_phase.py:450-456 | probes the nodes in order, stops at the first that does not answer; a raise counts as no |
| Rollout.DoTouchAll | akropolis/phases/authentik_phase.py:319-341 | each configured asset in turn, refused if it is not on the workstation, to every node; collects the names of the nodes whose bytes changed |
| Rollout.DoStage | akropolis/phases/authentik_phase.py:486-497 | pushes the three files to every node before anything restarts and fills `changed` by name |
| Rollout.DoRoll | akropolis/phases/authentik_phase.py:499-516 | walks the fleet backwards, recreates and gates the flagged nodes, stops at the first failure |
| Rollout.DoBoot | akropolis/phases/authentik_phase.py:517-546 | recreates and gates the leader, then the others one by one |
| Rollout.ApplyAuthentik | akropolis/phases/authentik_phase.py:459-546 | the whole apply: choose the path, render, roll or boot |
| RolloutProofs.RollServes | akropolis/phases/authentik_phase.py:499-516 | from an all-healthy fleet, at every step only the node acted on is not healthy, no node before it in fleet order has been touched, nodes are taken in reverse order, and a failed gate leaves exactly that |
| RolloutProofs.RollResult | akropolis/phases/authentik_phase.py:499-516 | a roll that returns has recreated exactly the flagged nodes, each from the files on its own disk, and left the others as they were |
| RolloutProofs.FollowResult | akropolis/phases/authentik_phase.py:536-546 | the followers loop, if it returns, leaves every non-leader on its disk files and healthy, and the leader as it was |
| RolloutProofs.BootResult | akropolis/phases/authentik_phase.py:517-546 | a bootstrap that returns has every node on its disk files with both containers healthy |
| RolloutProofs.PushOneResult | akropolis/remote.py:24-67 | a push that returns leaves the content and nothing else changed, and reports a change unless the probe found the content there |
| RolloutProofs.StageResult | akropolis/phases/authentik_phase.py:486-497 | rendering moves files only, to every node; of the nodes of one name the last decides the flag: set if and, where the probes answer, only if its files had to be written or the name was touched before |
| RolloutProofs.RenderResult | akropolis/phases/authentik_phase.py:475-497 | the same with branding assets uploaded first, in terms of the fleet before |
| RolloutProofs.RollingApplyKeepsServing | akropolis/phases/authentik_phase.py:459-546 | from an all-healthy fleet of any size, whatever the commands answer, a rolling apply keeps all nodes but one healthy at every step, and all of them if it returns |
| RolloutProofs.RollingConverges | akropolis/phases/authentik_phase.py:486-516 | for any fleet and any names, branded or not: a rolling apply that returns leaves a node running what was rendered if and only if it ran that already, or the last node of its name had files to write, or some node of its name an asset |
| RolloutProofs.RollingConvergesEach | akropolis/phases/authentik_phase.py:486-516 | with names apart every node decides for itself: it had files to write or ran them already |
| RolloutProofs.SettledFleetConverges | akropolis/phases/authentik_phase.py:486-516 | where running files equal disk files everywhere, an apply that returns leaves every node on the rendered files |
| RolloutProofs.BootstrapConverges | akropolis/phases/authentik_phase.py:517-546 | the bootstrap path, if it returns, leaves every node on the rendered files and healthy, whatever its names and what it ran |
| Outcomes.GateExactly | akropolis/phases/authentik_phase.py:105-113 | over the replies to its polls: a gate opens if and only if some poll within the budget shows the node healthy and none before it is lost or late; the first one lost breaks it off |
| Outcomes.CycleSucceeds | akropolis/phases/authentik_phase.py:499-516 | a node is recreated with success if the restart answers and one of the 90 polls that 900 s allow, one every 10 s, reports both containers healthy before any is lost or late |
| Outcomes.CycleSucceedsOnlyThen | akropolis/phases/authentik_phase.py:499-516 | and only then |
| Outcomes.ApplyReturns | akropolis/phases/authentik_phase.py:459-546 | with every asset there, every command succeeding and every gate seeing its node healthy in time, an apply returns, on either path |
| Outcomes.MissingAssetStops | akropolis/phases/authentik_phase.py:319-341 | an apply of which an asset is missing fails, whatever the commands answer, with nothing but files touched |
| Outcomes.RollsExactly | akropolis/phases/authentik_phase.py:450-456 | the rolling path is taken if and only if every node in turn answers its probe with a server |
| Restore.DoSurvey | akropolis/phases/restore_phase.py:198-220 | finds the first node answering as primary, scans the header, and asks the server for its settings, before anything is touched |
| Restore.KeepsMeans | akropolis/phases/restore_phase.py:257-265 | a file fed through the filter reaches psql with all of its data if and only if it decodes to its end and no line of its data is spelt like a setting to strip |
| Restore.DoStopAll | akropolis/phases/restore_phase.py:222-230 | takes authentik down node by node, refusing to go on at the first failure |
| Restore.DoUpload | akropolis/phases/restore_phase.py:232-246 | uploads, restricts, compares the digest, removes a mismatch |
| Restore.DoSwap | akropolis/phases/restore_phase.py:248-319 | drop and create, load, delete the upload, re-own, count strays; each refusal in its place; the load is complete only if what feeds psql ran to its end, which nothing checks |
| Restore.DoRevive | akropolis/phases/restore_phase.py:336-389 | worker alone, then server, then the other nodes, each gated |
| Restore.ApplyRestore | akropolis/phases/restore_phase.py:175-389 | the whole restore |
| RestoreProofs.RestoreStartsInOrder | akropolis/phases/restore_phase.py:336-389 | in every restore, however it ends, a server starts only after the worker's own gate has passed on that node, and another node only after the leader's pair has |
| RestoreProofs.RestoreServes | akropolis/phases/restore_phase.py:175-389 | a restore that returns leaves every node healthy on the loaded dump with no stray owner, complete exactly if all of its data arrived |
| Outcomes.UnsurveyedTouchesNothing | akropolis/phases/restore_phase.py:198-220 | if no node says it is the primary, or an answer is lost before one does, or the header cannot be scanned, or the settings query is lost, the restore fails having only asked: no fleet touched, no other command issued |
| Outcomes.SurveyedStopsTheFleet | akropolis/phases/restore_phase.py:198-230 | otherwise the next command takes authentik down on the first node |
| Outcomes.StopAllExactly | akropolis/phases/restore_phase.py:222-230 | the fleet counts as stopped if and only if every node's command succeeds |
| Outcomes.UploadExactly | akropolis/phases/restore_phase.py:232-246 | the dump counts as uploaded if and only if the upload arrived, chmod and digest were heard of, and the digest agrees |
| Outcomes.SwapExactly | akropolis/phases/restore_phase.py:248-319 | the database is replaced if and only if drop, load and re-owning succeed, no table is left with another owner, and the removal and count are heard of; strays of the load itself do not matter |
| Outcomes.RestoreReturns | akropolis/phases/restore_phase.py:175-389 | with every command succeeding and every gate seeing its node healthy in time, a restore of a dump that can be scanned returns, however many tables it loaded with another owner |
| Campaign.AuthentikKeeps | akropolis/phases/authentik_phase.py:459-546 | an apply keeps, at every step, whichever invariants are asked for: that the leader alone migrates, and that containers exist only on a database of the level it began on |
| Campaign.RestoreKeeps | akropolis/phases/restore_phase.py:175-389 | so does a restore, the level of completeness included if the data of a dump it goes on to start on arrived; and it drops only under a stopped fleet with the dump verified |
| Campaign.ReplaceLoads | akropolis/phases/restore_phase.py:198-325 | a replacement of the database that returns has loaded the dump with no stray table, complete exactly if all of its data arrived |
| Campaign.RunAllKeeps | akropolis/phases/restore_phase.py:222-389 | and any sequence of both, each ending anywhere |
| Campaign.OnlyTheLeaderMigrates | akropolis/phases/authentik_phase.py:517-546 | from a cold fleet with one leader, over any mix of failed and repeated runs, nobody but the leader migrates, and no follower has a container before the schema is migrated |
| Campaign.DropsAreGuarded | akropolis/phases/restore_phase.py:222-255 | over any mix of runs from any fleet, DROP is issued only with all containers gone and the upload verified |
| Campaign.RestoresStartOnOwned | akropolis/phases/restore_phase.py:222-319 | over any sequence of restores of whatever dumps, at every step a container exists only on a database that is untouched, or loaded without an error of psql and with no stray owner |
| Campaign.RestoresAreNeverHalfUp | akropolis/phases/restore_phase.py:222-319 | over any mix of restores whose data arrives and applies begun on a whole database, at every step a container exists only on a database that is untouched or completely loaded and owned |
| Campaign.Operate | akropolis/cli.py:190-197 | the sequence of invocations, issued one after another |
| Witnesses.UnreachedNodesStayStale | akropolis/phases/authentik_phase.py:494-516 | after one failed restart every later rolling apply that returns leaves the unreached nodes on the old files |
| Witnesses.SharedNameHidesAChange | akropolis/phases/authentik_phase.py:486-494 | on any config the loader accepts, its nodes given one name, with every command succeeding: if the last node's files and every asset are in place, a changed node goes on running the old files |
| Witnesses.HalfUpExactly | akropolis/phases/restore_phase.py:257-270 | over any mix of applies and restores, from any fleet stopped or on a whole database, whatever the commands answer: a container exists at some step on a database that is not whole if and only if some operation finds or makes it so and gets as far as its first start |
| Witnesses.RestoreOfFileExactly | akropolis/phases/restore_phase.py:257-270 | a restore of a file does so exactly if it gets as far as starting the leader and the file does not decode to its end, or a line of its data is spelt like a setting to strip, or what feeds psql did not run to its end |
| Witnesses.NothingElseStopsIt | akropolis/phases/restore_phase.py:257-319 | with every command succeeding, exactly if not all of the file's data arrived |
| Witnesses.ApplyExactly | akropolis/phases/authentik_phase.py:517-525 | an apply does so exactly if it finds a database that is not whole and gets as far as starting the leader |
| Witnesses.DumpGoneExactly | akropolis/phases/restore_phase.py:232-273 | over a whole restore: no dump is on the node in the end if and only if its answers, from the upload to the removal, say so |
| StateFile.State.Save | akropolis/state.py:58-65 | what every way of ending a save leaves of the two files: death or a raise before, in the middle of, or after the replacement |
| StateFile.State.MarkPhase | akropolis/state.py:38-47 | the new status drops the old error, keeps tag and note, and is saved |
| StateFile.MarksKeep | akropolis/state.py:38-47 | two marks of one phase, one after the other: the status and error are the second's, a tag or note stays until another replaces it, and nothing else changes |
| StateFile.State.GetOrGenerate | akropolis/state.py:50-55 | generates and saves only for a key not in memory, and returns what is in memory |
| StateFile.PinnedKeeps | akropolis/state.py:50-55 | a value in memory stays, a new one is added beside the others |
| StateFile.FileIsAlwaysWhole | akropolis/state.py:58-65 | over any history the file is never torn: it is the initial one or the whole memory of the process at some event since |
| StateFile.PinsPersist | akropolis/state.py:50-55 | a value on file for a generated-once key is there for ever, and is what every later call returns |
| StateFile.GeneratedOnce | akropolis/state.py:50-65 | over any interleaving of pins, marks, raised saves, deaths inside a save and restarts in which a value taken from memory is on file, any two values returned for one key are equal |
| StateFile.AgreementNeedsTheFile | akropolis/state.py:50-65 | a value taken from memory agrees with every careful history that follows if and only if it is on file |
| StateFile.HandledGeneratesOnce | akropolis/phases/base.py:165-182 | where a raised save is followed by a mark, a death or a restart, as every caller leaves it, any two values returned for one key are equal |
| Runner.DoRunPhases | akropolis/phases/base.py:135-184 | the runner's loop, turn by turn, equals its function |
| Runner.TurnStatus | akropolis/phases/base.py:153-182 | over how the turn went and the record before: done, skipped, declined, failed, applying or as it was |
| Runner.TurnDetail | akropolis/phases/base.py:165-182 | the error recorded is the one thrown, and any other mark drops it; tag and note stay; no other phase changes |
| Runner.TurnShows | akropolis/phases/base.py:153-182 | what is noted as applied and as verified is what happened; the runner goes on if and only if the phase verified, or was optional and refused, and that was saved |
| Runner.CmdProvision | akropolis/cli.py:154-197 | read the file, mark the replayed phases pending, choose the phases, run them |
| Runner.OnlyAttemptsExactly | akropolis/cli.py:181-193 | `--only S` attempts exactly the phases in S, done or not, in pipeline order, cut after the first blocking one; with an unknown name it attempts none |
| Runner.PhaseRows | akropolis/cli.py:209-227 | one row per phase in run order with its status, and its error unless it is done |
| Runner.ErrorOfLastMark | akropolis/cli.py:209-227 | the row of a phase shows the error of its last mark, if that was one |
| Runner.CmdStatus | akropolis/cli.py:230-271 | names the first phase not done, or none |
| Runner.PlainRunAttemptsDue | akropolis/phases/base.py:135-184 | a plain run attempts exactly the phases not done, in pipeline order, cut after the first that blocks |
| Runner.ResultMeansSettled | akropolis/phases/base.py:135-184 | a run that ends by itself returns True if and only if every phase is done, or optional and skipped |
| Runner.EarlierPhasesSettled | akropolis/phases/base.py:135-184 | whenever a full run gives a phase a turn, every earlier phase is done or an optional one skipped |
| Runner.PlainRunShrinksDue | akropolis/phases/base.py:175-176 | the number of phases not done never grows over a plain run that ends, and shrinks as soon as one verifies |
| Runner.ReplayAttemptsExactly | akropolis/cli.py:177-193 | `--replay S` attempts exactly the phases in S or not done, in pipeline order, cut after the first blocking one, and returns True exactly if all ended settled |
| Runner.StatusNamesTheNextAttempt | akropolis/cli.py:263-270 | the phase `status` names is the first the next plain run attempts; it reports all done exactly if that run attempts none |
| Runner.DoneMeansVerified | akropolis/phases/base.py:165-182 | in every history of plain and replay runs with deaths anywhere, a phase on record as done reached verify = True the last time it was applied |
| Runner.OnlyKeepsTheRecord | akropolis/cli.py:177-193 | an `--only` run of any phases keeps that, however its saves and turns go, if and only if each of them is not on record as done or is named by `--replay` too |
| Lifecycle.DoStart | akropolis/phases/authentik_lifecycle.py:176-200 | start reaches for a node only past the gate, and clears the gate when its apply completes |
| Lifecycle.RefusedStart | akropolis/phases/authentik_lifecycle.py:176-181 | a start not taken on, or without a completed shutdown, touches no node, does not succeed, and leaves the gate as it is |
| Lifecycle.AdmittedStart | akropolis/phases/authentik_lifecycle.py:176-200 | one that is reaches for the nodes; the gate is cleared exactly if its apply gets to the end, and it succeeds exactly if that is saved and verify finds it well |
| Lifecycle.ShutdownShows | akropolis/phases/authentik_lifecycle.py:110-132 | a shutdown is seen to complete if and only if it was taken on, did its work, verified, and its mark reaches the file |
| Lifecycle.StartShows | akropolis/phases/authentik_lifecycle.py:176-200 | a start is seen to complete if and only if it was admitted, got to the end of its apply, and the save that clears the gate got through |
| Lifecycle.TouchesFollowShutdowns | akropolis/phases/authentik_lifecycle.py:110-200 | in every trace of the two commands, start reaches for a node only if the gate as it reads it is done, and then the last mark of the gate on file is a completed shutdown's (or the gate stood open at first) |
| Lifecycle.StartsNeverOutnumberShutdowns | akropolis/phases/authentik_lifecycle.py:110-200 | completed starts never outnumber completed shutdowns (plus one if the gate stood open at first) |
| Lifecycle.NoStartWithoutShutdown | akropolis/phases/authentik_lifecycle.py:176-181 | with the gate shut, a completed shutdown precedes every completed start |
| Lifecycle.ShutdownBetweenStarts | akropolis/phases/authentik_lifecycle.py:199-200 | between any two completed starts lies a completed shutdown |
| Firewall.CoversIsABlock | akropolis/templates/backup-fw.sh.j2:19 | a source matches a network exactly if it lies in the block that starts at its base with the host bits cleared (section 3.1 of RFC 4632) |
| Firewall.Chain.Delete | akropolis/templates/backup-fw.sh.j2:14-15 | `-D` removes the first rule of that specification and no other |
| Firewall.Chain.Install | akropolis/templates/backup-fw.sh.j2:12-22 | from any chain, wherever the script stops: the first tagged rules listed are deleted one by one, then one drop goes in, then the accepts from the last source back; never more than its commands reach |
| Firewall.ScriptRunsThrough | akropolis/templates/backup-fw.sh.j2:12-22 | a script that lists every tagged rule and whose commands all succeed leaves one accept per source in list order, one drop, then the untagged rules in their order |
| Firewall.InstallForgets | akropolis/templates/backup-fw.sh.j2:7-11 | whatever earlier runs did and wherever they stopped, only the last list counts, and installing it again changes nothing |
| Firewall.InstalledMeaning | akropolis/templates/backup-fw.sh.j2:2-11 | first match accepts TCP to the port from exactly the listed networks and drops it from elsewhere; every other packet, and all of them for an empty list, is decided by the untagged rules alone |
| Firewall.ScriptedMeaning | akropolis/templates/backup-fw.sh.j2:12-22 | wherever the script stops: once its drop is in, TCP to the port is accepted from exactly the sources put in after it and dropped from elsewhere; until then, and for any other packet, the rules not yet deleted decide |
| Publication.IpsFromRaw | akropolis/config.py:173-176 | the configured list is empty exactly if every entry is blank |
| Publication.BasePhase.BackupPublish | akropolis/phases/base_setup.py:101-141 | answered already: resolve and pin nothing; otherwise ask once and pin list then flag, in memory and on file, each save completing, raising or ending the process |
| Publication.BasePhase.Apply | akropolis/phases/base.py:165-170 | a pin whose save raised is written after all by the mark of the failed phase, if that reaches the file |
| Publication.PinningIsOnFile | akropolis/state.py:38-65 | that is what the state file holds after the pins and that mark, event by event |
| Publication.NeverBoth | akropolis/config.py:191-218 | the remote list and the loopback flag are never both in force |
| Publication.ConfigWins | akropolis/config.py:185-218 | what the config settles no pin changes: its list before everything, then its flag, then a pinned list, then a pinned flag |
| Publication.ReturnedIsResolved | akropolis/phases/base_setup.py:138-141 | what a call that asks hands back is what every later call of the process resolves |
| Publication.PromptSticks | akropolis/phases/base_setup.py:138-141 | the question counts as answered from then on if and only if the first pin reaches the file, by its own save or by the mark; and then later runs resolve the answer if and only if, it being "localhost", the first save completed and the second pin reaches the file too |
| Publication.FirstKeptDecides | akropolis/phases/base_setup.py:101-114 | over any number of runs the first answer whose first pin is kept decides for good, as itself or as "no" |
| Publication.PublicationIsCoherent | akropolis/phases/authentik_single_phase.py:266-275 | after base and then authentik apply, wherever the firewall script stopped: an off-host source reaches PostgreSQL if and only if the list in force is non-empty and the source is among those put in after the drop or, the drop not being in, the rules not yet deleted let it through |
| Publication.PublicationWhenInstalled | akropolis/phases/authentik_single_phase.py:266-275 | the script having run through: if and only if the list contains it |
| Reconcile.Connections.CollectDrift | akropolis/phases/ldap_reconcile.py:66-107 | reads every source into a map, later entries winning, skips a source that raised, and compares its rows |
| Reconcile.Connections.Apply | akropolis/phases/ldap_reconcile.py:121-137 | the swap loop, with somebody else's edits before each look-up and before each save |
| Reconcile.Connections.Run | akropolis/phases/ldap_reconcile.py:195-265 | the command: refuse, ask, swap, re-read, and its return code |
| Reconcile.LiveIsLast | akropolis/phases/ldap_reconcile.py:66-81 | of the usable entries of one username, the last is what LDAP is taken to hold |
| Reconcile.ConfirmedMeans | akropolis/phases/ldap_reconcile.py:235-244 | the changes made are of exactly the drifted rows answered yes |
| Reconcile.ReturnCode | akropolis/phases/ldap_reconcile.py:195-248 | under any sync: 2, with nothing touched, exactly if there is no source to read; 0, with nothing touched, if no row differs or every one that does was declined |
| Reconcile.ConfirmedReturnCode | akropolis/phases/ldap_reconcile.py:250-265 | and where something was confirmed, under any sync: 0 if and only if every confirmed row read as the operator was shown it and every row read again is SAME, 1 otherwise |
| Reconcile.SwapIsGuarded | akropolis/phases/ldap_reconcile.py:121-137 | a change writes at most its own row and only if that read as the dry run stored it; what it overwrites is still that value exactly if nobody set it to another in between |
| Reconcile.SwapsAreConfirmed | akropolis/phases/ldap_reconcile.py:121-137 | every UPDATED result is for the confirmed change at its position, of the right account, read as stored; accounts never change |
| Reconcile.OtherRowsFramed | akropolis/phases/ldap_reconcile.py:121-137 | whatever the sync does, a row of an account no change is for ends up as the sync alone would leave it |
| Reconcile.LeftAloneSwap | akropolis/phases/ldap_reconcile.py:121-137 | whatever the sync does elsewhere, a row it leaves alone ends up with the new value of its account's change if it held the one confirmed, and as it was otherwise |
| Reconcile.RowsLeftAlone | akropolis/phases/ldap_reconcile.py:195-265 | over a whole run, whatever the sync does to other rows: a row it leaves alone holds the live value if its account was confirmed, and is as it was if not |
| Reconcile.UnconfirmedUntouched | akropolis/phases/ldap_reconcile.py:195-265 | over a whole run, whatever the sync does to any row: one whose account was not confirmed is as the sync alone would leave it |
| Reconcile.UndisturbedSwap | akropolis/phases/ldap_reconcile.py:121-137 | undisturbed, every row holds the new value of its account's change if it held the stored one, and its own otherwise |
| Reconcile.SecondApplyWritesNothing | akropolis/phases/ldap_reconcile.py:112-137 | the same changes applied again write nothing |
| Reconcile.ConfirmedReadsSame | akropolis/phases/ldap_reconcile.py:258-263 | undisturbed and with LDAP unchanged, every re-read row of a confirmed account is SAME |
| Reconcile.UndisturbedRun | akropolis/phases/ldap_reconcile.py:195-265 | the undisturbed command succeeds if and only if no unconfirmed namesake of a confirmed account is out of line |
| Reconcile.UnconfirmedNamesakeFails | akropolis/phases/ldap_reconcile.py:258-265 | an account out of line that was not confirmed, whose username was confirmed in another source, fails the undisturbed command |
| TlsAcme.Controller.DoTlsApply | akropolis/phases/tls_phase.py:87-191 | keep or generate on the leader, distribute, reload the running nginx of the nodes with new bytes, set the flag, record the mode |
| TlsAcme.Controller.DoFinalise | akropolis/phases/nginx_keepalived_phase.py:233-325 | read the issuer, force or keep, ask certbot, push and run the hook, clear the flag |
| TlsAcme.Controller.DoNginxApply | akropolis/phases/nginx_keepalived_phase.py:142-230 | push and start nginx where it does not run or its configuration is new, gate every node on /monitor, then keepalived on every node, then the VIP; finalise while the flag stands |
| AcmeProofs.TlsApplyFlags | akropolis/phases/tls_phase.py:131-191 | where tls is not on record as done, or the flag is set, that holds throughout its apply, and when apply returns the flag is set |
| AcmeProofs.TlsApplyGives | akropolis/phases/tls_phase.py:111-175 | with every command succeeding and the digests answering, the tls phase leaves one certificate on every node, the leader's if it was any good, whoever issued it, and a placeholder otherwise; a node serves it if and only if it served it already, or runs and was given new bytes |
| AcmeProofs.MissedReloadStays | akropolis/phases/tls_phase.py:155-175 | a node that has the leader's good certificate on disk keeps what it had loaded through every later tls apply, however it ends |
| AcmeProofs.FinaliseIsHonest | akropolis/phases/nginx_keepalived_phase.py:301-325 | the flag is off, in memory or on file, only once no node holds the placeholder |
| AcmeProofs.PlaceholderIsFlagged | akropolis/phases/nginx_keepalived_phase.py:73-75 | in every history of runs ending anywhere, with the lineage ageing and renewing in between, and each `--only` run of tls finding it not done, or replaying it, or the flag set: tls done while some node holds the placeholder implies the flag is set |
| AcmeProofs.OnlyKeepsTheFlag | akropolis/phases/tls_phase.py:131-191 | a run keeps that, however its commands and saves go, if and only if it does not take tls under `--only`, or finds tls not done, replays it, or finds the flag set |
| AcmeProofs.FinalisedServes | akropolis/phases/nginx_keepalived_phase.py:263-325 | a finalisation that returns leaves every node serving the lineage and the flag cleared; it is of the CA asked for if and only if certbot was forced, had none, found it due, had the right one, or the issuer could be read |
| AcmeProofs.WithoutTheFlagNothingIsIssued | akropolis/phases/nginx_keepalived_phase.py:73-75 | with the flag cleared, no run that does not take tls touches a certificate, the lineage or a generated value, however it ends |
| AcmeProofs.NginxAloneFinalisesIffPending | akropolis/phases/nginx_keepalived_phase.py:73-75 | a run that takes nginx-keepalived and not tls, and returns True, finalises if and only if the flag is still set |
| AcmeProofs.TakingBothFinalises | akropolis/phases/nginx_keepalived_phase.py:228-325 | a run that takes both and returns True leaves every node serving one issued certificate and the flag cleared |
| AcmeOutcomes.NginxApplyGives | akropolis/phases/nginx_keepalived_phase.py:142-230 | with every command succeeding nginx-keepalived returns with nginx up on every node with its configuration; a node has loaded what is on its disk if it did not run or its configuration was new, and what it had before otherwise; with issuance pending, every node serves the lineage |
| AcmeOutcomes.CertifyEnds | akropolis/phases/tls_phase.py:111-175 | in the tls phase the first command that does not come back, or that has to work and does not, is the last; without a leader nothing is asked |
| AcmeOutcomes.StageExactly | akropolis/phases/tls_phase.py:176-191 | pending issuance is recorded if and only if the command before comes back and both saves get through |
| AcmeOutcomes.StartOneExactly | akropolis/phases/nginx_keepalived_phase.py:142-178 | nginx on a node is left alone if and only if it is seen to run and its configuration is found in place; otherwise a start is tried, and one that fails is passed over |
| AcmeOutcomes.ServeEnds | akropolis/phases/nginx_keepalived_phase.py:142-226 | in nginx-keepalived too the first command that does not come back, or has to work and does not, is the last |
| AcmeOutcomes.IssueExactly | akropolis/phases/nginx_keepalived_phase.py:233-300 | if certbot returns, the lineage is the old one if there is one that is not due and of the right CA, or whose issuer could not be read, and nothing forces; and a new one of the CA asked for otherwise |
| AcmeOutcomes.DeployExactly | akropolis/phases/nginx_keepalived_phase.py:301-325 | a deployment returns if and only if the hook is pushed and works, the expiry query comes back, and the save that clears the flag gets through |
| AcmeOutcomes.ServeExactly | akropolis/phases/nginx_keepalived_phase.py:181-227 | nginx brought up, the rest goes through if and only if every /monitor answers, then every keepalived starts, then the VIP answers; it changes no node |
| AcmeOutcomes.MonitorGates | akropolis/phases/nginx_keepalived_phase.py:181-194 | a /monitor that does not answer ends the phase there, with no keepalived step issued |
| AcmeOutcomes.CloseMarks | akropolis/phases/base.py:165-182 | how the end of a turn marks the phase: done, failed, or not at all |
| AcmeOutcomes.CloseEnds | akropolis/phases/base.py:165-182 | the run goes on if and only if the phase is done and that is saved, and ends with the process if apply did, verify raised, or the mark was not saved |
| AcmeOutcomes.RunReturns | akropolis/cli.py:177-193 | with everything going well a run of the two phases returns True, with what it took on file as done |
| Patroni.Fleet.ApplyPatroni | akropolis/phases/patroni_phase.py:123-164 | leader first, gated; replicas in order, each gated on its role and then on streaming |
| Patroni.BringSucceeds | akropolis/phases/patroni_phase.py:123-164 | a member comes up if its start takes effect and one of 60 polls shows its role and, for a replica, one of 36 then shows it streaming |
| Patroni.StreamingIsNeeded | akropolis/phases/patroni_phase.py:146-164 | a replica whose role shows but which never streams fails the run |
| Patroni.ApplyReturns | akropolis/phases/patroni_phase.py:123-164 | with every start taking effect and every gate passing in time, a run returns with the leader promoted and every replica started and streaming |
| Patroni.ApplyStaggers | akropolis/phases/patroni_phase.py:123-164 | one run keeps the stagger, and one that returns has every replica joined |
| Patroni.StartsAreStaggered | akropolis/phases/patroni_phase.py:123-164 | over any number of runs each ending anywhere, no replica has been started before the leader was promoted or before every replica ahead of it had joined |
| Patroni.ColdIsStaggered | akropolis/phases/patroni_phase.py:146-164 | so from a cold fleet at most one replica at a time is started and not yet streaming |
| Haproxy.Fleet.Apply | akropolis/phases/haproxy_phase.py:57-84 | push, then recreate, reload or leave each node; a restart that fails is recorded and passed over, a raise ends the phase with what it left of the node |
| Haproxy.RaiseLeaves | akropolis/phases/haproxy_phase.py:57-84 | a raise at a node leaves those before it done, those after it untouched, and itself with whichever file the raise came after |
| Haproxy.NodeConverges | akropolis/phases/haproxy_phase.py:67-84 | a node whose restart or reload worked runs the rendered files if and only if it was recreated, or ran the compose file already and either had its configuration written or ran it already |
| Haproxy.SettledConverges | akropolis/phases/haproxy_phase.py:67-84 | where running equals disk every node converges, and a second apply touches no container |
| Haproxy.FailedReloadStays | akropolis/phases/haproxy_phase.py:79-81 | after a failed reload every later apply leaves the container with the old configuration |
| DumpFilter.HeaderSetParams | akropolis/phases/restore_phase.py:108-120 | the names set in the first 400 lines, each once, in order |
| DumpFilter.ParamsMeaning | akropolis/phases/restore_phase.py:114-119 | a name is found if and only if some scanned line sets it, and once only |
| DumpFilter.SettingParses | akropolis/phases/restore_phase.py:117 | a line of the form scanned for, with any white space where it may be, is read as its name |
| DumpFilter.ParsesOnlySettings | akropolis/phases/restore_phase.py:117 | and a line that is read as a name is of that form |
| DumpFilter.Feed | akropolis/phases/restore_phase.py:257-265 | what psql is fed: the dump itself with nothing to strip, the filtered dump otherwise |
| DumpFilter.SpellingParses | akropolis/phases/restore_phase.py:117 | a line in the spelling sed looks for is read back by the scan as the same name |
| DumpFilter.SedIsTheSublist | akropolis/phases/restore_phase.py:261-263 | the output is the surviving lines, each once, in order, and nothing else |
| DumpFilter.DataUntouched | akropolis/phases/restore_phase.py:261-263 | what follows any header comes through untouched if and only if none of it is spelt like a line to strip |
| DumpFilter.DeletedLines | akropolis/phases/restore_phase.py:261-263 | exactly the lines that set, in the canonical spelling, an unknown name the header sets are deleted |
| DumpFilter.SurvivorsAreKnown | akropolis/phases/restore_phase.py:122-133 | with the server's answer in hand, a canonical header line survives if and only if the server knows its name |
| DumpFilter.FedIdentity | akropolis/phases/restore_phase.py:126-133 | the filter is the identity exactly if no line is one to delete; always so when the query failed or every name is known |
| Changelog.Sections | akropolis/changelog.py:21-28 | the loop over the matches equals the list of headers with their stripped bodies |
| Changelog.EntryFor | akropolis/changelog.py:31-39 | the search with early return equals the first section of that version, shown |
| Changelog.HeadersMatch | akropolis/changelog.py:14 | a line that opens with two hashes, a space and a version in brackets is matched, up to its end |
| Changelog.MatchesAreHeaders | akropolis/changelog.py:14 | and nothing else is |
| Changelog.SectionsRebuild | akropolis/changelog.py:21-28 | the preamble and every header with its unstripped body are the text exactly, and no section starts in the preamble |
| Changelog.EntryIsFirst | akropolis/changelog.py:31-39 | the entry is the first section whose header carries the version in the text itself; none exactly if no header does |
| Changelog.EntryIsIdempotent | akropolis/changelog.py:31-39 | slicing what was sliced gives it back, for every text and every version listed in it |
| Remote.Node.PushFile | akropolis/remote.py:24-67 | the four commands and what each failure leaves |
| Remote.PushConverges | akropolis/remote.py:33-67 | a push that returns leaves the content and any owner asked for, from any prior state; the mode too, except exactly where the file was in place with another one and stat failed |
| Remote.ChangedMeansDifferent | akropolis/remote.py:33-67 | it returns True exactly if the content differed or the digest could not be had |
| Remote.SecondPushIsANoOp | akropolis/remote.py:33-54 | a second push writes nothing where the digest answers, and leaves the file exactly as it is where the first left it as asked for |
| Remote.WaitFor | akropolis/remote.py:121-138 | terminates; True exactly if some poll begun before the deadline passes, none before it having raised; at most as many polls as intervals fit, rounded up; False no earlier than the deadline and less than one poll and one sleep later |
| Validator.Validate | akropolis/config.py:273-343 | the node, leader and VIP loops, with the leader flag set in place, equal the list of problems and nodes |
| Validator.CountLeaders | akropolis/config.py:293-297 | none exactly if no node is marked, several exactly if two are |
| Validator.AcceptedIffSound | akropolis/config.py:273-343 | no problem if and only if the count fits, the addresses are valid and distinct, at most one leader is marked, and (HA) the VIP is valid, no node's and in every IPv4 node's /24 |
| Validator.OneLeaderAfterDefaulting | akropolis/config.py:293-297 | then exactly one node leads |
| Validator.NamesByDefault | akropolis/config.py:280-281 | a node is called what it says, or by its place if it says nothing or the empty name |
| Validator.SubnetHoldsEverybody | akropolis/phases/patroni_phase.py:66-68 | and the subnet computed from node 0 contains every node and the VIP |
| Validator.SharedNamesAreAccepted | akropolis/config.py:280-291 | any accepted config stays accepted with all its nodes of one name |
| Email.AuthentikPhase.DoEmail | akropolis/phases/authentik_phase.py:353-395 | per value: config, else pinned answer, else ask, pin, and use |
| Email.RecordIsConfigOrPins | akropolis/phases/authentik_phase.py:373-395 | every field of a record resolved is the config's where the config gives it, and otherwise the pinned one; the port is the number that reads as, and there is no password without a user |
| Email.AsksExactly | akropolis/phases/authentik_phase.py:353-395 | a call that resolves has asked exactly what neither the config nor a pin gives, in order, and the password only of a user |
| Email.DeclinesExactly | akropolis/phases/authentik_phase.py:353-363 | a call declines if and only if the config says so, or says nothing and the first question is answered, now or before, with other than yes |
| Email.ResolvedForEver | akropolis/phases/authentik_phase.py:347-352 | once resolved or declined under a config, every later call under it that finds those pins returns the same, asks nothing and pins nothing |
| Email.EmailOnFile | akropolis/phases/authentik_phase.py:353-395 | a call does one pin to the state file for each question it asks, in order, of what was typed or, if nothing was, of the usual answer, its save going as it went; one that ends without raising has everything it pinned on file |
| Email.ResolvedThroughHistories | akropolis/phases/authentik_phase.py:347-352 | so over every history in which such a call is followed by anything that handles raised saves as the callers do, deaths inside saves included, whichever process asks again resolves the same and asks nothing |
| Email.RaisesExactly | akropolis/phases/authentik_phase.py:353-395 | with every save completing, a call raises if and only if the settings are read and what is read as the port, the config's, else the pinned one, else what is typed, else 587, is no number |
| Email.BadPortSticks | akropolis/phases/authentik_phase.py:374 | once a port that is no number is pinned, and the config gives none, every later call raises, whatever is typed and however its saves go |
| Email.RaisedForEver | akropolis/phases/authentik_phase.py:374 | a call that raises with every save completing raises for ever under its config |

## Left out

- SSH, sudo, prompts, terminal output and transcripts: a command is an oracle step, a prompt an arbitrary input that already satisfies the loop that re-asks.
- The text of rendered files: a file is an opaque value; of the single-node compose file only the publication lines are modelled.
- sha256 collisions, certificate parsing, certbot and Docker internals: equal digests mean equal contents, a container that reports healthy has migrated, and certbot keeps what is not due unless forced.
- What happens to containers between the commands of a run: they change only when their node is acted on or polled. A host that reboots into the enabled unit, and a node that falls ill by itself, are not part of this model.
- Campaign.OnlyTheLeaderMigrates: holds for one tag; a change of tag starts a new epoch, in which the single migrator would be the first node rolled.
- RolloutProofs.RollingConverges: its second half, and so the if-and-only-if, assumes that digest probes answer; a probe that fails makes the phase write and recreate more.
- Runner.ReplayAttemptsExactly: assumes that the marks that make the named phases pending are saved; a run that ends before is covered by DoneMeansVerified.
- RolloutProofs.PushOneResult: mode and owner are covered for one file in Remote.dfy, not in the fleet model.
- AcmeOutcomes.MonitorGates: a timed wait in these two phases is one answer; the polling loop is Remote.WaitFor.
- AcmeOutcomes.NginxApplyGives: one value stands for nginx.conf and the compose file, either of which restarts nginx; the maintenance page, which nginx reads afresh on every request, is not modelled.
- Patroni: installing, rendering and the role and database at the end, and the cluster protocol of Patroni and etcd itself.
- Reconcile.UndisturbedRun: takes account keys and slugs as unique, as Authentik's own tables keep them.
- Remote.WaitFor: takes the interval as positive, as every caller passes it; with interval 0 and instant polls the loop need not end before the clock moves.
- Validator.SubnetHoldsEverybody: IPv4 only; IPv6 and other spellings of an address are compared as text.
- `apply_brand`, bootstrap token re-minting and the tag pinned at the end of an apply: they touch neither files nor containers; the tag appears in the runner as the mark `applying`.
- The single-node phases (authentik, nginx, restore): one-node variants of what is modelled; only the publication of PostgreSQL differs and is.
- `clean`: an event that ends a pinning epoch. `preflight`, `handoff`, the monitor, `update`, `licenses`, the init wizard: fixed tables, plumbing or user interface.
- Timestamps in the state file, and its permissions.
- A carriage return alone ends a line for the header scan but not for sed; lines are taken as already split. White space in the scan is the six ASCII characters.
- Remote.Node.PushFile: a stat that answers with no number counts as one that failed, as in the code, where neither makes a drift.
