# Verified models of the maintenance tools and the stateful xpra classes

A Dafny model of the parts of this repository whose correctness spans many
steps, and proofs of what those parts are for.  `dafny verify dfyconfig.toml`
checks all of it.

## What is modelled

**Cleanup transactions** (`Cleanup*.dfy`, on `FileTree.dfy`).  A disk is a finite
map from paths to nodes with an identity.  A reviewed plan is published as a
marker; each directory is renamed to a staging name, a phase marker is published,
its entries are deleted one by one, the phase goes, and the plan's marker goes
last.  Every change is atomic and a crash may fall between any two.  `Host` is the
disk with a number of changes the process still makes before it dies; the
finisher, the loader and the publication are methods on it.  The central
invariant is `CleanupTransaction.Underway`: each target is untouched, staged,
partly deleted behind its phase, or gone, and nothing else differs from the disk
that was reviewed.  `CleanupReview` says what a fingerprint tells of a target, in
terms of its nodes, and so what is refused because it is not what was reviewed.

**The planner** (`Artifact*.dfy`).  The policy loader and the recursive walk that
decides what a cleanup removes, proved to produce what the transaction needs, and
the whole confirmed clean on top of both, held to what the policy's document lists.

**Payload transport** (`Payload*.dfy`).  Pathname resolution as steps, and the
validator of symbolic-link chains measured against it; tree enumeration, manifest,
archive and extraction, held to one predicate on member lists
(`PayloadMembers.Fits`); `Path.resolve`, which the extractor asks about every link,
as its loop with what it remembers (`PayloadResolve`), against the recursion Python has
up to 3.12 (`PayloadRealpath`) and against the steps; all joined end to end in
`PayloadTransfer.Transfer`, for payloads described node by node (`PayloadAcceptance`);
and the directory merge, validated first and carried out afterwards.

**Background jobs** (`Job*.dfy`).  Launcher, supervisor, command, pipe and files as
a state machine over their steps, with the launcher failing or dying anywhere;
`launch` as one of its runs; what a world says of the events that led to it
(`JobHistory`); and the state query and termination as sequences of looks at a world
that moves on between them.

**Audio keepalive** (`AudioKeepalive.dfy`, `Keepalive*.dfy`).  The mixin as a class
with an observer of its clock, runs of two ends joined by links with delays and
losses, and two objects whose every event is a step of such a run
(`KeepaliveConnection`).

**Audio queue and volume** (`AudioSink.dfy`, `Sink*.dfy`, `VolumeRamp.dfy`).  The queue
controller in integer milliseconds, with what its numbers mean (`SinkMeaning`), and
the ramp over the reals with the square root given by its defining equation.

**History squash** (`Squash*.dfy`).  Which case a fixup's subject names
(`SquashNaming`), the order of the todo, and the replay of that order as patches to
paths.

**Scanner, detector, geometry** (`LineScanner.dfy`, `LineKinds.dfy`, `SourceReport.dfy`,
`RuntimeAudit.dfy`, `TrayGeometry.dfy`).

Findings worth a maintainer's attention, each with the exact condition or a witness
in the table.  `process_state` may call a job lost whose completion is on disk: exactly
for calls that begin while the supervisor lives and has not published
(`JobState.WronglyLostExactly`).  The queue's maximum can fall below its minimum, as
with a queue of 248 ms and the other settings at their defaults
(`SinkRuns.FallsBelowExactly`, `SinkRuns.MaximumMayFallFirst`).
The link validator refuses some chains without a cycle, because it counts uses and not
links (`PayloadGraph.RepeatedUseRefused`).  `Path.resolve` does not report every loop,
so the extractor's own check lets some links pass that lead nowhere: up to Python 3.12
exactly those where the text left, in normal form, stays inside and does not loop, as
with a -> a/../b and never without ".." (`PayloadRealpath.AnsweredExactly`,
`PayloadRealpath.NoDotsNoText`, `PayloadRealpath.TextPasses`); since 3.13 even a link to
itself (`PayloadResolve.LoopPasses`).  An archive the writer made holds none.  And
publication and finisher by themselves do not refuse a plan that nests one target in
another before the outer one is gone (`CleanupPublication.PlannedNested`,
`Cleanup.NestingFound`), but nothing hands them one: neither builder makes such a plan,
and both removals insist on the plan that is built
(`CleanupCycle.BuiltIsSeparate`, `ArtifactCleanup.PlanIsSeparate`).

## Model

| member | source | states |
|---|---|---|
| CleanupNames.DecimalInjective | fork-maintenance/tools/contrib.py:3518-3528 | the index in a staging or phase name identifies the target: equal decimal texts mean equal numbers |
| CleanupNames.MarkerNameIsOne | fork-maintenance/tools/contrib.py:3588-3597 | a plan's marker is recognised as a marker, and no staging directory or phase file ever is |
| CleanupNames.NamesDistinct | fork-maintenance/tools/contrib.py:3518-3528 | staging and phase names of one cycle never collide, between targets or between the two kinds |
| CleanupNames.CycleNameIsWords | fork-maintenance/tools/contrib.py:67 | a cycle name is words of lower-case letters and digits joined by single hyphens, and nothing else is one |
| CleanupTransaction.RegionsDisjoint | fork-maintenance/tools/contrib.py:4185-4245 | for a prefix-free plan clear of the transaction root, no two targets own a common path (subtree, staging, phase), and none owns the marker |
| CleanupTransaction.StepFrame | fork-maintenance/tools/contrib.py:4185-4245 | a change confined to one target's paths that leaves that target in one of its legal states keeps the invariant of the whole run |
| CleanupTransaction.PartlyRemovedNext | fork-maintenance/tools/contrib.py:4151-4182 | deleting one more leaf of a directory leaves a part that still has its root, and one entry less |
| CleanupSteps.StageStep | fork-maintenance/tools/contrib.py:4220-4228 | renaming a directory to its staging name keeps the run going and does exactly one unit of the work left |
| CleanupSteps.PhaseStep | fork-maintenance/tools/contrib.py:3559-3575 | publishing a phase marker keeps the run going and does one unit of work |
| CleanupSteps.RemoveStep | fork-maintenance/tools/contrib.py:4169-4174 | removing one entry behind the phase marker keeps the run going and does one unit of work |
| CleanupSteps.PruneStep | fork-maintenance/tools/contrib.py:4169-4174 | an rmtree cut anywhere keeps the run going and does one unit of work per entry it removed |
| CleanupSteps.PhaseDoneStep | fork-maintenance/tools/contrib.py:4178-4182 | removing the phase marker of a deleted directory leaves the target gone and does one unit of work |
| CleanupSteps.FileStep | fork-maintenance/tools/contrib.py:4230-4232 | unlinking a file target leaves it gone and does one unit of work |
| CleanupRuns.PublishStep | fork-maintenance/tools/contrib.py:3724-3760 | publishing the marker on a reviewed disk starts a run: the invariant holds |
| CleanupRuns.UnderwayLoads | fork-maintenance/tools/contrib.py:3578-3721 | in every state of a run, whatever crash left it, the loader returns exactly the published transaction |
| CleanupRuns.MarkerStep | fork-maintenance/tools/contrib.py:4238-4245 | removing the marker last leaves the disk without its targets and otherwise as it was |
| CleanupRuns.FinishedLoads | fork-maintenance/tools/contrib.py:3578-3721 | after the end nothing is pending and every target is gone |
| CleanupRuns.DirectoryTargetSafety | fork-maintenance/tools/contrib.py:4151-4182 | a directory still in its place is whole and has no staging or phase; a part of it exists only under its staging name with a valid phase marker |
| CleanupRuns.OutsideSafety | fork-maintenance/tools/contrib.py:4185-4245 | no path outside the plan and the transaction root ever changes, and the marker outlives all other bookkeeping |
| CleanupRuns.ChangeKeeps | fork-maintenance/tools/contrib.py:4151-4245 | every atomic change of the finisher, on any target, keeps the invariant and does one unit of work |
| CleanupRuns.EveryState | fork-maintenance/tools/contrib.py:3578-4245 | every state of every run keeps the invariant, loads as the same transaction, and the k-th state has k units less to do, so every run ends |
| CleanupHost.Host.constructor | fork-maintenance/tools/contrib.py:3724-3760 | a host with the given disk and number of changes before it dies |
| CleanupHost.Host.Rename | fork-maintenance/tools/contrib.py:4220-4225 | an atomic rename that refuses an existing destination; a failure or crash changes nothing |
| CleanupHost.Host.Publish | fork-maintenance/tools/contrib.py:1440-1447 | a complete private file appears, or nothing does |
| CleanupHost.Host.Unlink | fork-maintenance/tools/contrib.py:4231-4241 | one file disappears, or nothing does |
| CleanupHost.Host.RemoveTree | fork-maintenance/tools/contrib.py:4174 | rmtree, one leaf per change: a crash leaves a part that still has its root, and each change is paid for by one entry |
| CleanupFinisher.Load | fork-maintenance/tools/contrib.py:3578-3721 | the loader returns what the disk holds: nothing pending, one valid transaction, or an error |
| CleanupFinisher.LoadTargets | fork-maintenance/tools/contrib.py:3688-3721 | the loader's two passes accept exactly when every directory target's phase, staging and place agree |
| CleanupFinisher.FinishStaged | fork-maintenance/tools/contrib.py:4151-4182 | touches only its target; in a run it never fails, and returns with the target gone |
| CleanupFinisher.EnsurePhase | fork-maintenance/tools/contrib.py:4163-4168 | returns only with the phase marker on disk; touches nothing else; in a run it never fails |
| CleanupFinisher.DeleteStaging | fork-maintenance/tools/contrib.py:4169-4177 | deletes only below the staging name and only behind the phase marker; in a run it never fails |
| CleanupFinisher.DropPhase | fork-maintenance/tools/contrib.py:4178-4182 | removes exactly the phase marker, once nothing is staged; the target is then gone |
| CleanupRemoval.TargetAccepted | fork-maintenance/tools/contrib.py:4132-4148 | in every state of a run each target still there validates against its plan, with its ancestors in place |
| CleanupReview.FingerprintTells | fork-maintenance/tools/contrib.py:1614-1702 | two fingerprints of one kind are equal exactly if what they were taken of is the same: a file's content, and for a tree every path, kind, content, link text and mode |
| CleanupReview.FingerprintSafe | fork-maintenance/tools/contrib.py:1614-1702 | a fingerprint is taken exactly of what may be removed: this user's own nodes, no special file, none writable by others, and results closed to the group too, with links that stay inside |
| CleanupReview.ContainedStays | fork-maintenance/tools/contrib.py:1614-1702 | the link check is that the text, read name by name, never climbs above the tree |
| CleanupReview.SomeAlteredRefused | fork-maintenance/tools/contrib.py:4118-4148 | a plan is refused where any of its targets is there and is not what was reviewed |
| CleanupReview.LoadedInOrder | fork-maintenance/tools/contrib.py:3578-3721 | what the loader takes for pending is a private root with one marker, holding the record of its own plan, staging directories and phases of that plan's directory targets and nothing else, each phase with that target's record, and no target in its place beside them; what it takes for nothing is an empty root or none |
| CleanupReview.LoadedIsNotForeign | fork-maintenance/tools/contrib.py:3688-3721 | it never loads where a directory in its place, or staged with its deletion not begun, is not the reviewed one, or where what is staged behind a phase has another root |
| CleanupRemoval.ResumeStaged | fork-maintenance/tools/contrib.py:4193-4208 | an earlier run's staging or phase is finished first, and what is in place is left alone |
| CleanupRemoval.StageDirectory | fork-maintenance/tools/contrib.py:4217-4228 | moves a directory target to its staging name between two looks at it |
| CleanupRemoval.RemoveDirectory | fork-maintenance/tools/contrib.py:4213-4229 | a directory in its place ends gone, by way of staging and phase |
| CleanupRemoval.RemoveFile | fork-maintenance/tools/contrib.py:4230-4232 | a file in its place ends gone |
| CleanupRemoval.RemovePresent | fork-maintenance/tools/contrib.py:4212-4237 | a target in its place ends gone; in a run this never fails |
| Cleanup.FinishTarget | fork-maintenance/tools/contrib.py:4192-4237 | one target of the loop: afterwards it is absent and its ancestors stand; counted as removed exactly when it or its staging was there |
| Cleanup.NestingFound | fork-maintenance/tools/contrib.py:4104-4116 | a target below an earlier one has lost an ancestor by its turn, so the parent check finds every nested plan |
| Cleanup.FinishTargets | fork-maintenance/tools/contrib.py:4190-4237 | on any disk only the transaction's paths change; returning shows no target lies below an earlier one; in a run all targets are gone and correctly counted |
| Cleanup.Finish | fork-maintenance/tools/contrib.py:4185-4245 | finish_cleanup_transaction: a target that is there and is not, byte for byte and node for node, what was reviewed, or whose directories are open to others, makes it fail and change nothing; a directory that is not the reviewed one is left alone wherever it stands; in a run it returns exactly when it lives for the work left, then the disk is finished; otherwise it dies in a state of the run; it never raises there |
| Cleanup.Restart | fork-maintenance/tools/contrib.py:4267-4283 | one process loads whatever is pending and finishes it, exactly when it lives long enough; with nothing pending it changes nothing |
| Cleanup.Resume | fork-maintenance/tools/contrib.py:3578-4245 | any number of crashes and restarts: done exactly when the changes made add up to the work left, and before that always loadable as the same transaction |
| CleanupPublication.PrepareRoot | fork-maintenance/tools/contrib.py:1464-1483 | creates at most the transaction root, and passes only if it is a private directory |
| CleanupPublication.PublishMarker | fork-maintenance/tools/contrib.py:3724-3760 | the marker loads back as this plan, or the publication fails; passing shows the plan is clear of the transaction root |
| CleanupPublication.Publish | fork-maintenance/tools/contrib.py:3724-3760 | a planned disk with a prefix-free plan clear of the root: never fails; it starts a run with all the work left, or dies with nothing published and just the transaction root made |
| CleanupPublication.GrownFingerprint | fork-maintenance/tools/contrib.py:1614-1702 | new content below a directory always changes its fingerprint |
| CleanupPublication.RootTargetRefused | fork-maintenance/tools/contrib.py:3724-3760 | a plan that names the transaction root never survives its own publication |
| CleanupPublication.PreparedReviewed | fork-maintenance/tools/contrib.py:3724-3760 | a planned disk with its root made is a disk the transaction can be published on |
| CleanupPublication.UnnestedIsPrefixFree | fork-maintenance/tools/contrib.py:3425-3483 | in the canonical order a nested target comes after its ancestor, so a plan without later nesting is prefix-free |
| CleanupPublication.PublishAndFinish | fork-maintenance/tools/contrib.py:3724-4245 | publication and finisher on a planned disk: passing shows that no target is the transaction root or below another; for such a plan it passes exactly with the changes needed, just the targets are then gone, and otherwise it dies where it can be taken on |
| CleanupPublication.FinishPending | fork-maintenance/tools/contrib.py:4267-4283 | a process that finds the removal pending ends it exactly when it has the changes still needed, and otherwise dies where the next one can take it on |
| CleanupPublication.StillPlanned | fork-maintenance/tools/contrib.py:3724-3760 | a removal that died before its marker was published starts again from the same reviewed state |
| CleanupPublication.PlannedNested | fork-maintenance/tools/contrib.py:4132-4148 | being planned is not enough: a disk and a plan of a directory and a file in it, each target as it was fingerprinted |
| CleanupCycle.BuiltIsSeparate | fork-maintenance/tools/contrib.py:3877-4065 | the targets of the four kinds of results lie in their own directories, so no plan that is built nests one target in another or names the transaction root |
| CleanupCycle.PlannedExactly | fork-maintenance/tools/contrib.py:4132-4148 | the disk a cycle's plan is published on: nothing pending, every target there behind private directories, as it was fingerprinted, a live result tree a private directory and the rest files |
| CleanupCycle.Remove | fork-maintenance/tools/contrib.py:4248-4302 | remove_cleanup_plan, given the plan built anew: on any disk a target that is not what was reviewed is refused and nothing changes; on a planned disk and with the changes it costs it passes if and only if the plan is a cycle's own and still the one that is built; refused, it changes nothing; cut off anywhere, the next call takes the removal on from there, and passes exactly when it has the changes still needed; the plan is built anew only while nothing is published, and must then still be the same |
| ArtifactPolicy.LoadPolicy | fork-maintenance/tools/artifacts.py:108-133 | accepts exactly the documents whose groups are non-empty, of distinct normal paths in whatever order, and together make a policy that is apart, rooted in structural parents, with only the knowledge base permanent and with work a task |
| ArtifactPolicy.AcceptedExactly | fork-maintenance/tools/artifacts.py:90-133 | the documents accepted, said of their paths alone: four groups, none empty and none with a path twice, of names without control characters or wildcards; every listed path of one class with all directories above it containers; only the knowledge base permanent, and work a task |
| ArtifactPolicy.ClassesApart | fork-maintenance/tools/artifacts.py:108-133 | lists without a repeat give pairwise disjoint classes |
| ArtifactPolicy.ApartNoTwice | fork-maintenance/tools/artifacts.py:108-133 | and disjoint classes come only from lists without a repeat between them |
| ArtifactPolicy.ListedStays | fork-maintenance/tools/artifacts.py:73-76 | what a policy keeps in a scope is what its document lists as permanent or infrastructure and, in a clean, as a task; what it opens is what the document lists as a container, and none of that stays |
| ArtifactPlan.DisposableIsClear | fork-maintenance/tools/artifacts.py:337-387 | nothing the walk disposes of overlaps a kept or protected path or is a structural parent |
| ArtifactPlan.DisposablesApart | fork-maintenance/tools/artifacts.py:337-387 | two disposable paths never overlap |
| ArtifactPlan.Partition | fork-maintenance/tools/artifacts.py:345-370 | every node below the root is structural, or lies under exactly one path where the walk stops, and that path is kept, protected, a target or blocked |
| ArtifactPlan.RetainedIsSafe | fork-maintenance/tools/artifacts.py:345-370 | what a kept or protected path covers lies under no target and is not blocked |
| ArtifactPlan.SortCanonical | fork-maintenance/tools/artifacts.py:373 | the plan's targets are in canonical order |
| ArtifactPlan.PosixInjective | fork-maintenance/tools/artifacts.py:373 | two normal paths with the same text are one, so the sort key tells targets apart |
| ArtifactPlan.CanonicalOnce | fork-maintenance/tools/artifacts.py:373 | the order leaves no choice: two sorted lists of the same targets are equal |
| ArtifactPlanner.StopsAt | fork-maintenance/tools/artifacts.py:345-367 | where the walk stops, the whole subtree contributes that one path and nothing else |
| ArtifactPlanner.OpensAt | fork-maintenance/tools/artifacts.py:354-357 | a structural directory contributes exactly what its children do |
| ArtifactPlanner.Planner.constructor | fork-maintenance/tools/artifacts.py:337-343 | a planner that has collected nothing |
| ArtifactPlanner.Planner.Visit | fork-maintenance/tools/artifacts.py:345-367 | visit succeeds exactly when the subtree can be walked, and then has collected exactly the targets and blocked paths in it, each once |
| ArtifactPlanner.Planner.Collect | fork-maintenance/tools/artifacts.py:358-367 | a disposable node becomes a target when it can be fingerprinted, and is blocked otherwise |
| ArtifactPlanner.Planner.VisitChildren | fork-maintenance/tools/artifacts.py:354-357 | the children of a structural directory, in any order, with the same exactness |
| ArtifactCleanup.TakeInventory | fork-maintenance/tools/artifacts.py:337-387 | the inventory is refused exactly when the walk must give up, and otherwise is the plan of the disk: all targets, each once, canonical, and exactly the blocked paths, with what stands in the way of a close added in that scope |
| ArtifactCleanup.OnePlan | fork-maintenance/tools/artifacts.py:337-387 | a disk has one plan, so a confirmed plan stays the one that is built |
| ArtifactCleanup.PlanIsSeparate | fork-maintenance/tools/artifacts.py:337-387 | every plan built is prefix-free, clear of the transaction root and of everything kept or protected, and names no structural parent |
| ArtifactCleanup.PlanIsPlanned | fork-maintenance/tools/artifacts.py:436-443 | every non-empty plan of a real disk is in the state its removal starts from |
| ArtifactCleanup.PlanAllowed | fork-maintenance/tools/artifacts.py:390-406 | validate_pending_policy accepts the targets of every plan built under the same rules |
| ArtifactCleanup.AllowedKept | fork-maintenance/tools/artifacts.py:390-406 | a plan that is accepted removes nothing that the document lists to stay or that is protected |
| ArtifactCleanup.ForbiddenRefused | fork-maintenance/tools/artifacts.py:390-406 | a pending plan of another policy or scope, or with a target that is a container, overlaps what stays, or is no artifact, is refused |
| ArtifactCleanup.PendingStaysAccepted | fork-maintenance/tools/artifacts.py:390-406 | and it accepts the pending plan in every state of its run, so an interrupted clean can be resumed |
| ArtifactCleanup.ReplanIsEmpty | fork-maintenance/tools/artifacts.py:337-387 | after the removal, planning under the same rules succeeds, and finds no target and the same blocked paths |
| ArtifactCleanup.RetainedUnchanged | fork-maintenance/tools/artifacts.py:436-443 | whatever a kept or protected path covers is the same after the removal |
| ArtifactCleanup.CleanedIsSwept | fork-maintenance/tools/artifacts.py:337-387 | a cleaned disk holds only what the document lists to stay, what is protected, their parents and, in a clean, what may not be removed |
| ArtifactCleanup.CloseDropsTask | fork-maintenance/tools/artifacts.py:73-76 | a close drops the task state: what is listed as such and overlaps nothing protected is gone |
| ArtifactCleanup.CleanPlanned | fork-maintenance/tools/artifacts.py:436-443 | a plan of the present disk never fails to be removed: with the changes needed the disk ends cleaned, and with fewer the process dies where the removal can be taken on |
| ArtifactCleanup.Operate | fork-maintenance/tools/artifacts.py:409-444 | a confirmed clean: whatever the policy's document lists to stay in the scope (for a clean the permanent, infrastructure and task paths, for a close the first two), and whatever is protected, is as it was at the end, on any disk and however it ends; a target changed since it was reviewed is refused, as is a pending plan of another policy or scope or one that removes what has to stay, and nothing changes; begun and cut off anywhere, it is taken on: the disk ends cleaned exactly when the changes still needed are there, and otherwise the process dies where the clean can be taken on; with nothing pending it ends cleaned, or refuses and changes nothing, or dies; once it has passed, only what is listed, protected or their parents is left, and in a clean what may not be removed |
| ArtifactCleanup.OperateAgain | fork-maintenance/tools/artifacts.py:409-444 | the clean called again after every crash: done exactly when the changes made add up to those it needs, with nothing left to plan; what the document lists to stay and what is protected is as it was, done or not, and when done nothing else is left but their parents and, in a clean, what may not be removed |
| PayloadLinks.RunJoins | fork-maintenance/tools/container_payload.py:238-265 | resolution is deterministic: a run continued from a state of it is the run itself |
| PayloadLinks.SystemStopsEarlier | fork-maintenance/tools/container_payload.py:238-265 | the system's resolution, which also stops at missing components and below files, never goes anywhere the walker does not |
| PayloadLinks.ResolutionEnds | fork-maintenance/tools/container_payload.py:238-265 | a link whose walk arrives: its unbounded resolution ends, and no step of it leaves the payload |
| PayloadLinks.MoreThanThereAre | fork-maintenance/tools/container_payload.py:238-265 | following more links than there are follows one of them twice |
| PayloadLinks.RunAhead | fork-maintenance/tools/container_payload.py:238-265 | resolution with components behind it first does what it does alone |
| PayloadLinks.EveryPathEndsInside | fork-maintenance/tools/container_payload.py:238-265 | in an accepted payload every path of plain names, through any links, resolves to its end without leaving the payload |
| PayloadGraph.Follow | fork-maintenance/tools/container_payload.py:243-265 | one link's loop ends on every input, cycles included, and accepts exactly the links that resolve inside within the budget; an escape is a climb, and a reported cycle has followed some link twice |
| PayloadGraph.ValidateSymlinkGraph | fork-maintenance/tools/container_payload.py:238-265 | accepts exactly when every link resolves inside the payload within the expansion budget |
| PayloadGraph.NoRepeatResolves | fork-maintenance/tools/container_payload.py:259-264 | a chain that ends inside and follows no link twice is never refused |
| PayloadGraph.RepeatedUseRefused | fork-maintenance/tools/container_payload.py:259-264 | a chain that ends inside, has no cycle and is refused, because it uses one link more often than there are links |
| PayloadGraph.SafeTargetStays | fork-maintenance/tools/container_payload.py:189-194 | the text check refuses exactly the empty, the absolute and those whose components climb above the root when no other link is met |
| PayloadGraph.SafeTargetsCanClimb | fork-maintenance/tools/container_payload.py:189-194 | the text check alone is not enough: two safe texts form a chain that leaves the payload |
| PayloadTree.IterTree | fork-maintenance/tools/container_payload.py:213-235 | fails exactly for a missing input, and otherwise yields every node at and below it once, parents first |
| PayloadMembers.FitsNext | fork-maintenance/tools/container_payload.py:282-314 | checking each new member against the kinds so far is checking the whole list: distinct names, only directories own members, in any order, within the limits |
| PayloadMembers.FittingLinks | fork-maintenance/tools/container_payload.py:282-314 | the links of a list that fits hang from no link, by names that need no resolving |
| PayloadMembers.NormalizedBits | fork-maintenance/tools/container_payload.py:197-199 | a normalised mode, bit by bit: the owner may read and write, and execute a directory or what the owner could execute before; nobody else may do anything |
| PayloadMembers.TotalIsContents | fork-maintenance/tools/container_payload.py:282-314 | the bytes counted are those of all the files together |
| PayloadListing.FewerItems | fork-maintenance/tools/container_payload.py:268-317 | fewer members, in any order, count no more and hold no more bytes |
| PayloadListing.SamePayload | fork-maintenance/tools/container_payload.py:268-317 | two complete listings in different orders hold the same kinds and links |
| PayloadListing.UnfitIsFinal | fork-maintenance/tools/container_payload.py:268-317 | once some nodes of a payload do not fit, or all fit and a link goes astray, no order of listing it is accepted |
| PayloadAcceptance.SendableIsAcceptable | fork-maintenance/tools/container_payload.py:268-317 | a payload can be sent exactly if, node by node, each is a directory, a file or a link by a text that stays inside, no two meet in one place, only directories have others below them, and count, bytes and links are within the limits |
| PayloadManifest.ListEntry | fork-maintenance/tools/container_payload.py:280-315 | every node of one entry is listed, or nodes of the payload that do not fit are reported |
| PayloadManifest.Manifest | fork-maintenance/tools/container_payload.py:268-317 | a manifest exactly when the payload can be sent, and then every node of every entry once, fitting, with all links resolving inside |
| PayloadDisk.PlaceOf | fork-maintenance/tools/container_payload.py:463-482 | an admitted member's ancestors on disk are directories, and its place is taken only by an implied directory |
| PayloadDisk.FirstDecides | fork-maintenance/tools/container_payload.py:475-482 | a directory no member names has the mode of a direct parent if the first member below it lies directly in it, and otherwise that of the directories above |
| PayloadDisk.PlacedNext | fork-maintenance/tools/container_payload.py:475-510 | placing one more member keeps the disk exactly what the members so far say |
| PayloadDisk.ClosedMirrors | fork-maintenance/tools/container_payload.py:522-535 | with the links made and the directories closed, the disk mirrors the members |
| PayloadExtract.PlaceMember | fork-maintenance/tools/container_payload.py:462-512 | one member's checks in order, and exactly what is made when they pass |
| PayloadExtract.SameChecks | fork-maintenance/tools/container_payload.py:462-512 | on a disk that holds the members so far, those checks, free place included, are the manifest's; every ancestor met is a directory, so no mkdir can fail |
| PayloadExtract.UnpackMember | fork-maintenance/tools/container_payload.py:462-512 | one member is placed, or the members up to it do not fit |
| PayloadExtract.Unpack | fork-maintenance/tools/container_payload.py:462-512 | the member loop accepts exactly the lists that fit: the very predicate the manifest is held to |
| PayloadExtract.Extract | fork-maintenance/tools/container_payload.py:427-547 | members that fit, with links that all end inside, are extracted, and then the tree is the members, the directories above them with the modes they were made with, and nothing else; members that do not fit are refused; up to Python 3.12 a list is extracted if and only if it fits and each of its links ends inside or passes as text, which without .. in a link's text none that goes astray does; later, without .. every list that fits is extracted |
| PayloadRuns.BackToStart | fork-maintenance/tools/container_payload.py:525-532 | a link met again while it is being resolved never resolves |
| PayloadRuns.InsideByName | fork-maintenance/tools/container_payload.py:525-532 | resolving a link by its name is resolving its target |
| PayloadRealpath.FollowTells | fork-maintenance/tools/container_payload.py:525-532 | realpath's recursion into links, up to Python 3.12, and any run of the plain step-by-step resolution that stands at its names: the run gets to what the recursion reaches; where it climbs out or is caught in a link, the run never arrives |
| PayloadRealpath.FollowArrives | fork-maintenance/tools/container_payload.py:525-532 | the recursion reaches a place if and only if the names lead there; caught, it names a link that leads back into itself |
| PayloadRealpath.TooManyLinksExactly | fork-maintenance/tools/container_payload.py:525-532 | the stat that resolve adds raises exactly when the system's own resolution follows more links than it may |
| PayloadRealpath.AnsweredExactly | fork-maintenance/tools/container_payload.py:525-532 | up to Python 3.12 names are answered with a place if and only if they lead to one, or are caught in a link and the normal form of its path and the names left stays inside and makes the system follow no more links than it may |
| PayloadRealpath.NoDotsNoText | fork-maintenance/tools/container_payload.py:525-532 | when no link has .. in its text, names caught in a link are never answered with a place: the system follows that link for ever |
| PayloadRealpath.TextPasses | fork-maintenance/tools/container_payload.py:525-532 | a link a to a/../b: safe by its text, leads nowhere, and is answered with b all the same |
| PayloadRealpath.DoubledSlashRefused | fork-maintenance/tools/container_payload.py:525-532 | a link a to a//../b is refused: the text left behind the doubled slash is absolute |
| PayloadResolve.TurnShrinks | fork-maintenance/tools/container_payload.py:525-532 | resolution of a link's name ends on every payload, cycles included: each turn enters a link not seen before or leaves one part less |
| PayloadResolve.TurnFollows | fork-maintenance/tools/container_payload.py:525-532 | each turn, remembered links included, stands for a state of the plain step-by-step resolution; where it stops, that never arrives |
| PayloadResolve.TurnOnward | fork-maintenance/tools/container_payload.py:525-532 | each turn of the loop with its stack and its memory is a step of the recursion with neither, or stops with its answer |
| PayloadResolve.Resolve | fork-maintenance/tools/container_payload.py:525-532 | Path.resolve without strict: names that lead inside are answered with the place they lead to; up to Python 3.12 the answer is always that of the recursion, and later every name gets one where no link has .. in its text |
| PayloadResolve.LinkInside | fork-maintenance/tools/container_payload.py:525-532 | the final check of one link: up to Python 3.12 it passes exactly the links that end inside or pass as text; later it passes every link where no link has .. in its text |
| PayloadResolve.LoopPasses | fork-maintenance/tools/container_payload.py:525-532 | since Python 3.13 a link to itself passes the final check |
| PayloadTransfer.WriteArchive | fork-maintenance/tools/container_payload.py:320-404 | an archive exactly when every source is what the manifest recorded when its turn comes and again at the last look, mode and times included, and then one member per entry with its mode normalised |
| PayloadTransfer.ArchiveExtracts | fork-maintenance/tools/container_payload.py:320-547 | whatever changed meanwhile, an archive that was written passes all the extractor's member checks and its final link check |
| PayloadTransfer.MirrorIsTransfer | fork-maintenance/tools/container_payload.py:427-547 | the extracted tree has every node of the payload at its place with kind, content and target, and only implied directories besides |
| PayloadTransfer.Transfer | fork-maintenance/tools/container_payload.py:268-547 | from manifest to extraction: the payload arrives exactly when its inputs exist, each node is a directory, a file or a link whose text stays inside, no two meet in one place and only directories have others below them, and count, bytes and links are within the limits; what arrives is the payload, each mode private with the owner's execute bit kept |
| PayloadMerge.Volume.Mkdir | fork-maintenance/tools/container_payload.py:718-719 | makes one directory, or finds it, or fails and changes nothing |
| PayloadMerge.Volume.Replace | fork-maintenance/tools/container_payload.py:720-722 | moves one file over a file or a free place and normalises its mode, or fails and changes nothing |
| PayloadMerge.Volume.Rmdir | fork-maintenance/tools/container_payload.py:723-726 | removes one directory exactly when nothing is below it |
| PayloadMerge.Survey | fork-maintenance/tools/container_payload.py:686-717 | the walk accepts exactly two real directories of which the first holds only directories and files, none meeting one of the other kind |
| PayloadMerge.MergeableIsCompatible | fork-maintenance/tools/container_payload.py:686-717 | the walk's checks are those of each node by itself: a directory meets a directory or nothing, a file meets a file or nothing, and there is nothing else |
| PayloadMerge.MakeDirectories | fork-maintenance/tools/container_payload.py:718-719 | when a call returns every target directory stands; after an accepted walk of two directories apart no mkdir fails |
| PayloadMerge.MoveFiles | fork-maintenance/tools/container_payload.py:720-722 | no directory goes; after an accepted walk of two directories apart no replace fails |
| PayloadMerge.RemoveDirectories | fork-maintenance/tools/container_payload.py:723-726 | all of the source goes only if every directory below it is one the walk listed; for two directories apart every rmdir, deepest first, meets an empty directory |
| PayloadMerge.MergeDirectory | fork-maintenance/tools/container_payload.py:684-726 | nothing changes unless every node of the source is a directory or file that meets its like or nothing; with neither directory inside the other that is also enough, no later step can fail, the destination is the source laid over it, and the source is gone; a destination inside the source passes the checks and is never merged |
| PayloadMerge.NothingLost | fork-maintenance/tools/container_payload.py:684-726 | every source node is at its new place, a file with its content and its execute bit, a directory private if it was made; everything of the destination no file replaced is as it was, and nothing else is there |
| JobProtocol.SoundStep | fork-maintenance/tools/background_job.py:501-710 | every step of launcher, supervisor, command or bystander keeps the protocol's invariant |
| JobProtocol.SoundRun | fork-maintenance/tools/background_job.py:501-710 | so does every interleaving of any length |
| JobSafety.NeverUnowned | fork-maintenance/tools/background_job.py:501-610 | in every reachable world, launcher death anywhere included: the command has started only if the owner record was published, and while any of its processes lives that record and the log are on disk |
| JobSafety.AllOrNothing | fork-maintenance/tools/background_job.py:584-604 | a failed launch has proved the group gone and left no file, or has left every file there was; a returned one is owned and released |
| JobSafety.OverStays | fork-maintenance/tools/background_job.py:371-439 | once the group is gone it stays gone, and a settled launcher leaves the completion as it is |
| JobSafety.DeathBeforeRelease | fork-maintenance/tools/background_job.py:666-675 | a launcher that dies before it opens the gate: the command never starts and nothing is ever reported |
| JobSafety.GateNeverBlocks | fork-maintenance/tools/background_job.py:666-675 | when the launcher is through, a supervisor at the gate can always go on |
| JobSafety.CodeTruly | fork-maintenance/tools/background_job.py:676-710 | what is reported is what the run's command returned, or 127 if it could not start, and it ends only once |
| JobHistory.HistoryTells | fork-maintenance/tools/background_job.py:501-710 | in every run the files are those published and not removed, the gate is what was written and not read, the supervisor lives from its fork to its end and is there until it is reaped, the processes are those started less those that ended and none after a kill, and the gate closes only on a command never released |
| JobHistory.GoneIsReaped | fork-maintenance/tools/background_job.py:371-439 | nobody finds a forked job's group gone before its supervisor was reaped and its last process ended |
| JobHistory.MayHappen | fork-maintenance/tools/background_job.py:501-710 | the launcher may die at any step, the supervisor at any time or leave without a report, and a process may fork any number of others |
| JobState.SaidTruly | fork-maintenance/tools/background_job.py:479-498 | completed is said only of a published completion whose group is gone for good, with the code the command itself returned, or 127 for one that could not start; lost only without a completion, without a supervisor and with the group gone; running only of what a look saw alive; and it raises exactly when what a look saw cannot be accounted for |
| JobState.SettledCall | fork-maintenance/tools/background_job.py:479-498 | a call begun after the group is gone says completed exactly when a completion was published, with the code the command itself returned (127 if it could not start), and lost otherwise |
| JobState.WronglyLostExactly | fork-maintenance/tools/background_job.py:479-498 | a call may answer lost while the completion is on disk if and only if, when it began, no completion was published and the supervisor still lived with its gate open or about to be opened; for a launch that returned, if and only if there was no completion and the supervisor lived |
| JobState.LostByRace | fork-maintenance/tools/background_job.py:479-498 | and such runs exist: any job whose launch has just returned may yet complete and be called lost |
| JobState.LostExactly | fork-maintenance/tools/background_job.py:479-498 | a job without a completion on disk can always come to be lost, and one whose completion nobody removes any more never is |
| JobState.Poll | fork-maintenance/tools/background_job.py:648-652 | a poll ends with the group gone, with a fault it saw, or after finding the group at every look |
| JobState.Terminate | fork-maintenance/tools/background_job.py:633-663 | returns only with the group gone for good; raises only for a lost job, a process it cannot account for, or a group that was there at every look |
| JobLaunch.System.constructor | fork-maintenance/tools/background_job.py:521-526 | a system before the launch |
| JobLaunch.System.Do | fork-maintenance/tools/background_job.py:501-610 | one step of the launcher is one step of the protocol |
| JobLaunch.System.Others | fork-maintenance/tools/background_job.py:666-710 | whatever others do between two steps is a run of the protocol that leaves the launcher where it is |
| JobLaunch.System.StopFailedLaunch | fork-maintenance/tools/background_job.py:267-297 | kill and look: files may go only after the group was proved gone, and otherwise the launch gives up with everything kept |
| JobLaunch.System.RemoveFiles | fork-maintenance/tools/background_job.py:588-599 | the handler's removals are the protocol's; the owner record goes when it is this launch's |
| JobLaunch.System.Launch | fork-maintenance/tools/background_job.py:501-610 | launch, with faults before or after any of its steps and anything happening between them, ends owned and released, or with the group and every file gone, or with every file kept |
| AudioKeepalive.AudioKeepaliveMixin.constructor | xpra/audio/keepalive.py:29-38 | a fresh endpoint, with no timer armed and nothing outstanding |
| AudioKeepalive.AudioKeepaliveMixin.CancelKeepaliveTimers | xpra/audio/keepalive.py:57-63 | no timer is armed afterwards, and the timer fields say so |
| AudioKeepalive.AudioKeepaliveMixin.UpdateLatestReceived | xpra/audio/keepalive.py:65-69 | after newer audio an enabled end has a keepalive armed, by the one timer its field names |
| AudioKeepalive.AudioKeepaliveMixin.UpdateLatestSent | xpra/audio/keepalive.py:71-76 | with an honest peer the echo clock runs exactly while something is outstanding, from when that began or an echo last advanced; sending keeps that so |
| AudioKeepalive.AudioKeepaliveMixin.ScheduleAudioKeepalive | xpra/audio/keepalive.py:78-83 | an enabled end that has received audio has a keepalive armed, one armed now for an interval from now, and the armed timers stay those of the timer fields |
| AudioKeepalive.AudioKeepaliveMixin.SendAudioKeepalive | xpra/audio/keepalive.py:85-92 | the latest timestamp goes out exactly when there is one and the end is enabled; the next keepalive is armed for an interval from now while audio is active, and none when it is not; the armed timers stay those of the fields |
| AudioKeepalive.AudioKeepaliveMixin.ScheduleKeepaliveCheck | xpra/audio/keepalive.py:94-97 | an enabled end has its check armed, one armed now for a second from now, and the armed timers stay those of the timer fields |
| AudioKeepalive.AudioKeepaliveMixin.CheckAudioKeepalive | xpra/audio/keepalive.py:99-104 | audio is stopped by the check exactly after a silence longer than the timeout, unless its packets may be dropped; an enabled source is checked again in a second, and an end without a source is not |
| AudioKeepalive.AudioKeepaliveMixin.AudioKeepaliveStale | xpra/audio/keepalive.py:106-121 | with an honest peer, yes exactly when data has been outstanding, and no echo has advanced, for longer than the timeout |
| AudioKeepalive.AudioKeepaliveMixin.HandleAudioKeepaliveStale | xpra/audio/keepalive.py:138-152 | the same answer, and the audio stopped once for each yes unless its packets may be dropped |
| AudioKeepalive.AudioKeepaliveMixin.AudioKeepaliveMaySend | xpra/audio/keepalive.py:132-136 | with an honest peer a buffer is held back exactly after a silence longer than the timeout; it counts as sent either way, and the echo clock keeps its meaning |
| AudioKeepalive.AudioKeepaliveMixin.Keepalive | xpra/audio/keepalive.py:154-161 | an echo of something sent keeps the clock's meaning, and one that advances puts any alarm off by the whole timeout |
| AudioKeepalive.AudioKeepaliveMixin.TimerFires | xpra/audio/keepalive.py:85-104 | a timer that fires is forgotten, its callback runs, and the armed timers are again those of the fields |
| KeepaliveSpec.AlarmIsSilence | xpra/audio/keepalive.py:106-121 | while the clock means what it should, an alarm is silence and silence an alarm |
| KeepaliveSpec.SchedulingKeepsTimers | xpra/audio/keepalive.py:78-97 | scheduling keeps the timer fields and the armed timers the same set |
| KeepaliveSpec.FiringKeepsTimers | xpra/audio/keepalive.py:85-104 | so does every firing |
| KeepaliveSpec.CancellingDisarmsAll | xpra/audio/keepalive.py:57-63 | after cancelling no timer is armed |
| KeepaliveSafety.StreamInOrder | xpra/audio/keepalive.py:65-161 | every step of a stream, late or lossy as it may be, keeps echoed, received and sent in order and the clock non-zero exactly while data is outstanding |
| KeepaliveSafety.NotStale | xpra/audio/keepalive.py:106-121 | while the advancing echo is on its way in time, the sender is not stale |
| KeepaliveSafety.StreamOnTime | xpra/audio/keepalive.py:65-161 | on a prompt link every step keeps the advancing echo on its way in time and never stops the audio |
| KeepaliveRuns.EveryStateSound | xpra/audio/keepalive.py:29-161 | in every state of every run of the two ends, echoes, clocks and timers keep their meaning |
| KeepaliveRuns.EveryStateTimely | xpra/audio/keepalive.py:29-161 | in every state of every prompt run the awaited echo is in time |
| KeepaliveRuns.NoFalseAlarm | xpra/audio/keepalive.py:106-121 | when each interval plus a round trip fits in the peer's timeout, no end is stale in any state of any prompt run, after silent gaps of any length, and audio is never stopped |
| KeepaliveSharp.FalseAlarm | xpra/audio/keepalive.py:106-121 | when an interval plus a round trip does not fit, some prompt run has a stale end, its peer alive and echoing |
| KeepaliveSharp.ExactlyPromptEnough | xpra/audio/keepalive.py:106-121 | no prompt run from a fresh connection has a false alarm if and only if each interval plus a round trip fits in the peer's timeout |
| KeepaliveRuns.AlarmMeaning | xpra/audio/keepalive.py:106-121 | in any run, stale if and only if data has been outstanding, and no echo has advanced, for longer than the timeout; echoed <= received <= sent |
| KeepaliveRuns.TimersAccountedFor | xpra/audio/keepalive.py:57-104 | in every run the armed timers are those of the timer fields, at most one of each kind |
| KeepaliveConnection.Happens | xpra/audio/keepalive.py:65-161 | one event of a stream, done by the methods of two mixin objects, does to them what it does in a run |
| KeepaliveConnection.Connection.constructor | xpra/audio/keepalive.py:29-52 | two new objects, each told by parse_audio_keepalive_caps of the other's keepalives, begin a run |
| KeepaliveConnection.Connection.Happen | xpra/audio/keepalive.py:65-161 | whatever may happen to the two objects continues their run |
| KeepaliveConnection.Connection.Wait | xpra/audio/keepalive.py:106-121 | so does time passing |
| KeepaliveConnection.Connection.Stale | xpra/audio/keepalive.py:106-121 | two objects on a prompt connection whose settings fit never answer stale, whenever asked, and never stop audio; on any connection the answer is yes exactly after a silence longer than the timeout |
| SinkSpec.LevelRange | xpra/audio/sink.py:290-298 | the spread of the recent levels: no two of them differ by more, and two differ by exactly that |
| SinkMeaning.RecentJoins | xpra/audio/sink.py:290-298 | which levels count is decided of each by its own time |
| SinkMeaning.PercentFalls | xpra/audio/sink.py:366-367 | the percentage taken off after an overrun falls from 100 to 0 in two seconds, along a straight line |
| SinkMeaning.TargetIsShare | xpra/audio/sink.py:362-370 | the target is the spread, the margin and a fifth for each overrun of the last minute up to all of it again, less while one is fresh; right to a millisecond, and at least 50 |
| AudioSinkQueue.AudioSink.constructor | xpra/audio/sink.py:117-135 | a sink that refills, with its limits in range when the configured one is |
| AudioSinkQueue.AudioSink.GetLevelRange | xpra/audio/sink.py:290-298 | the loop over the recorded levels computes that spread |
| AudioSinkQueue.AudioSink.SetMaxLevel | xpra/audio/sink.py:351-391 | a change brings the maximum half way to its goal, exactly so short of the cap of 1000, under the lock and at most once a second; when one may be made and is not, the maximum is near its goal already |
| AudioSinkQueue.AudioSink.SetMinLevel | xpra/audio/sink.py:318-349 | a minimum that may be set leaves 50 to the maximum: none without a refill, and during one the larger of the underrun level and 100 more than the spread, if that leaves the room; it changes under the lock and at most once a second |
| AudioSinkQueue.AudioSink.QueueUnderrun | xpra/audio/sink.py:269-288 | keeps the limits in range and the minimum below the maximum, and starts a refill if and only if the start is over, the last underrun is five seconds old, there is no minimum and less than 10 ms is queued |
| AudioSinkQueue.AudioSink.QueueOverrun | xpra/audio/sink.py:300-316 | keeps the limits in range, records the overrun exactly if the start is over and the last is two seconds old, leaves the minimum alone, and leaves the maximum below it exactly when the overrun counts, the maximum may be set, and is wanted below the minimum and far enough from where it is |
| AudioSinkQueue.AudioSink.DataAdded | xpra/audio/sink.py:438-455 | keeps the limits in range, ends a refill exactly when the level is past a minimum, and leaves the maximum below the minimum exactly when it may be set and is wanted there, far enough from where it is, and the minimum may not be set |
| SinkRuns.StepInRange | xpra/audio/sink.py:269-454 | every event keeps the maximum in 50..1000 and the minimum in 0..950 |
| SinkRuns.EveryRun | xpra/audio/sink.py:269-454 | so does every run, whatever the levels, the times and the lock |
| SinkRuns.MinLeavesRoom | xpra/audio/sink.py:328-347 | a minimum that is set is 0 or at least 50 below the maximum of that moment |
| SinkRuns.StepOrderly | xpra/audio/sink.py:117-135 | every event keeps a refill going until a level is known, at most a hundred levels and overruns, and overruns more than two seconds apart |
| SinkRuns.FallsBelowExactly | xpra/audio/sink.py:269-454 | an event leaves the maximum below the minimum if and only if it is an overrun that counts or a buffer while the minimum may not be set, the lock is free, the last change of the maximum is a second old, and the maximum wanted is below the minimum and differs by more than 50 and half the spread; an underrun never does |
| SinkRuns.MaximumMayFallFirst | xpra/audio/sink.py:351-391 | a run from a new sink, with a queue of 248 ms and the other settings at their defaults, that ends with the maximum below the minimum: two overruns after a refill |
| SinkRuns.ChangeHalves | xpra/audio/sink.py:371-389 | a change of the maximum halves its distance to the goal, exactly but for rounding short of the cap, and happens only from more than 50 away |
| SinkRuns.SetMaxSettles | xpra/audio/sink.py:371-389 | and a maximum that is left alone though it could be changed is within about the hysteresis of its goal |
| SinkRuns.FewChanges | xpra/audio/sink.py:371-389 | in any run in which the spread, the target and the refill are the same at every call of set_max_level, the number of events that change the maximum is at most logarithmic in its initial distance from the goal |
| SinkRuns.FiveChanges | xpra/audio/sink.py:371-389 | from within its range that is at most five changes, for a run of any length, refilling or not |
| VolumeRamp.Ramp.constructor | xpra/audio/sink.py:118-124 | a muted volume with its target, and no tick yet |
| VolumeRamp.Ramp.AdjustVolume | xpra/audio/sink.py:242-255 | a tick that goes on brings the volume up without overshooting, and is one of at most 150 times the target; the one that stops the timer leaves the volume within 1/300 of the target |
| VolumeRamp.TickCloses | xpra/audio/sink.py:242-255 | while the gap is a hundredth or more, a tick never overshoots, closes at least 1/150, and moves by a fifteenth of the gap's root |
| VolumeRamp.LastTick | xpra/audio/sink.py:242-255 | the tick that stops the ramp leaves the volume within 1/300 of the target and never below 0 |
| VolumeRamp.FadeCloses | xpra/audio/sink.py:242-255 | after n ticks the gap is at least n/150 smaller and the volume still on its side of the target |
| VolumeRamp.FadeEnds | xpra/audio/sink.py:242-255 | no ramp goes on for more ticks than 150 times its initial gap |
| LineScanner.Find | fs/bin/source_report.py:286-294 | the first place of a marker at or after an index, or none |
| LineScanner.OutsideComments | fs/bin/source_report.py:293-304 | jumping to the next marker skips exactly code |
| LineScanner.InsideBlock | fs/bin/source_report.py:285-292 | jumping to the end of a block comment skips no code |
| LineScanner.ScanLine | fs/bin/source_report.py:282-304 | the find-and-jump loop equals the automaton that reads the line character by character, in either state |
| LineScanner.EveryLineCounted | fs/bin/source_report.py:257-308 | blank, comment and code lines add up to the lines, in every language |
| LineKinds.LineComment | fs/bin/source_report.py:276-308 | code with a line comment behind it is a line of code, and a comment alone is a comment |
| LineKinds.BlockComment | fs/bin/source_report.py:276-308 | so it is with a block comment that ends within the line, and whatever is before and after it |
| LineKinds.InComment | fs/bin/source_report.py:282-292 | inside a block comment a line is a comment unless it is blank, and behind its end it is what follows |
| LineKinds.PrefixLine | fs/bin/source_report.py:265-273 | in a language with line comments alone a comment is a line that starts with the prefix behind nothing but space |
| LineKinds.OpenThroughout | fs/bin/source_report.py:276-308 | whether a block comment is open is carried through every line alike, blank ones included |
| SourceReport.LineStats.constructor | fs/bin/source_report.py:71-78 | counters with given values |
| SourceReport.LineStats.Add | fs/bin/source_report.py:80-86 | counts whose lines are all accounted for leave a sum balanced exactly when it was |
| SourceReport.LineStats.AddPlain | fs/bin/source_report.py:257-262 | counts each line as the specification says |
| SourceReport.LineStats.AddPrefixComment | fs/bin/source_report.py:265-273 | counts each line as the specification says |
| SourceReport.LineStats.AddCLike | fs/bin/source_report.py:276-308 | counts each line as the automaton says, with the block state carried across lines and blank lines |
| SourceReport.LineStatsFor | fs/bin/source_report.py:241-254 | the handler of the file's type is used, and blank + comment + code equals lines whatever the type |
| SourceReport.Accumulate | fs/bin/source_report.py:576-589 | the totals and each entry of the table are the sums over the files that could be read |
| SourceReport.SumsBalance | fs/bin/source_report.py:80-86 | blank + comment + code equals lines in every sum |
| SourceReport.TotalsAreSum | fs/bin/source_report.py:586-589 | the totals are the sum of the table, over its types in any order |
| RuntimeAudit.Failures | fork-maintenance/tools/runtime_audit.py:21-34 | exactly the patterns that match somewhere in the payload |
| RuntimeAudit.MatchesTexts | fork-maintenance/tools/runtime_audit.py:12-17 | what the patterns match, text by text |
| RuntimeAudit.TailOfTail | fork-maintenance/tools/runtime_audit.py:47-50 | the tail kept from window to window is the tail of the whole output |
| RuntimeAudit.CheckedCommand | fork-maintenance/tools/runtime_audit.py:37-54 | a text of a pattern, of at most 4097 bytes, at the start of the output or of any line of it, is found and makes the exit non-zero, however the output is cut into blocks; what is found is a pattern's text in the output, where a line or a window starts; the status is the command's own unless that is 0 and something was found |
| RuntimeAudit.NothingMissed | fork-maintenance/tools/runtime_audit.py:44-50 | however the output is cut into blocks, a text of at most 4097 bytes that starts a line of it stands whole, at the start of a line, in some window |
| RuntimeAudit.FoundIsThere | fork-maintenance/tools/runtime_audit.py:44-50 | what is found is in the output, at the start of a line or where a window begins |
| RuntimeAudit.LongerMatchMissed | fork-maintenance/tools/runtime_audit.py:44-50 | the bound is sharp: a match of 4098 bytes can be missed |
| TrayGeometry.OutOfIs | xpra/tray_base.py:137-140 | the test that ends the loop fails a coordinate exactly when it would stretch the spread beyond the size |
| TrayGeometry.GuessCovers | xpra/tray_base.py:144-154 | the guessed rectangle covers every location it was made from, clamping included, when none is negative |
| TrayGeometry.GuessInMiddle | xpra/tray_base.py:144-154 | the guessed rectangle has the extremes of the locations it was made from in its middle, but for rounding, or begins at 0 where that would be less |
| TrayGeometry.TrayBase.constructor | xpra/tray_base.py:40-41 | no location and no guess |
| TrayGeometry.TrayBase.Gather | xpra/tray_base.py:128-142 | the locations used are the longest run of last ones that fits the size |
| TrayGeometry.TrayBase.RecalculateGeometry | xpra/tray_base.py:116-157 | the assertion holds exactly for a non-negative width and height; the guess then has the longest fitting run of last locations in its middle, as far as it can without a negative corner, and a change is reported exactly when there is one |
| SquashSpec.Owner | fork-maintenance/tools/contrib.py:1279-1296 | a placed fixup belongs to an earlier commit that is no fixup |
| SquashNaming.IsWritten | fork-maintenance/tools/contrib.py:1265-1283 | every subject with a fixup prefix is one or more prefixes and a target that has none |
| SquashNaming.CandidatesNamed | fork-maintenance/tools/contrib.py:1284-1290 | the candidates are one case exactly if the subject names one: the only earlier case whose commit or subject equals the target or, where none does, the only one with a commit or subject that begins with it; and then it is that case |
| SquashNaming.ControlPaths | fork-maintenance/tools/contrib.py:80-86 | a control path is one of two files or lies below one of three directories |
| SquashSpec.NestedFixup | fork-maintenance/tools/contrib.py:1280-1283 | a fixup of a fixup names the same cases as the fixup it mends |
| SquashOrder.OrderInOrder | fork-maintenance/tools/contrib.py:1297-1302 | the todo holds every commit once: by the pick it belongs to, then in the order of the history |
| SquashReplay.Commute | fork-maintenance/tools/contrib.py:1262-1302 | commits that touch different paths apply in either order, to the same tree |
| SquashReplay.MoveBack | fork-maintenance/tools/contrib.py:1262-1302 | a commit can move behind any others that touch different paths |
| SquashReplay.Reorder | fork-maintenance/tools/contrib.py:1262-1302 | an order that only swaps commits with different paths replays a clean history to the same tree |
| SquashLines.FiledNext | fork-maintenance/tools/contrib.py:1295-1296 | filing one more line under its case keeps every list in the order of the history |
| SquashTodo.FileFixups | fork-maintenance/tools/contrib.py:1273-1296 | the first loop succeeds exactly when every fixup names one earlier case and touches no control path, and then has filed each under its case |
| SquashTodo.LayOut | fork-maintenance/tools/contrib.py:1297-1302 | the second loop lays the picks out with their fixups behind them |
| SquashTodo.Todo | fork-maintenance/tools/contrib.py:1262-1302 | case_squash_todo: a todo exactly when every fixup's subject, read as prefixes before a target, names one earlier case (the only one whose commit or subject is the target or, if there is none, the only one with a commit or subject that begins with it) and it touches no control path; then each fixup's line stands in the block of the case it names, and the lines are those of the todo order |
| SquashTodo.StandsBehind | fork-maintenance/tools/contrib.py:1297-1302 | a fixup's line stands behind its case's pick with no other pick between them |
| SquashTodo.ReadyIsPlaceable | fork-maintenance/tools/contrib.py:1279-1296 | every fixup has just one candidate and touches no control path exactly if every subject names one earlier case and no control path is touched |
| SquashTodo.TodoPermutes | fork-maintenance/tools/contrib.py:1297-1302 | the todo is a permutation: picks keep their order, and each fixup is in its case's block in the original order |
| SquashTodo.ControlApart | fork-maintenance/tools/contrib.py:1083-1087 | the path check keeps control commits apart from every fixup |
| SquashTodo.SwappedApart | fork-maintenance/tools/contrib.py:1290-1296 | whatever the todo swaps touches different paths |
| SquashTodo.SquashKeepsTree | fork-maintenance/tools/contrib.py:1262-1302 | when fixups share no path with the other cases' commits they cross, the squash replays cleanly and ends in the tree of the history |

## Left out

- Durability: the order of fsync calls, and what a power failure (rather than a process death) leaves.
- The cleanup records' JSON text and schema: records are typed values, and a digest is equality of what it digests.
- Device, inode and link count: one identity per node, and `owned` for the user and the single link.
- Cleanup locks, the blockers of running peers, the byte counts of the inventory and the reasons reported for what is blocked; what stands in the way of a close is an input.
- CleanupCycle.Remove: the plan built anew is an input, of which only where its targets lie, their order and that they are distinct is used; the digest the caller confirms is the plan itself.
- The protections of running owners are an input of the planner; only the transaction root is always among them.
- The order of siblings in the planner's walk and in `_iter_tree` is left open, so the archive's member order is not determined; every proof holds for all orders.
- PayloadExtract.Extract: models members, not the tar bytes; header limits, padding and the ceiling on raw bytes are not part of this model, nor is the atomic rename of the finished directory.  For Python 3.13 and later it says which links that go astray pass only where no link has ".." in its text.
- PayloadResolve.Resolve: starts at the extraction directory, so a chain, or a text, that leaves it and comes back by its name counts as outside; how many links the system follows in one resolution is an input; a limit on the length of a path or the depth of recursion is not part of this model.
- PayloadTransfer.WriteArchive: the times compared at the last look are the set of paths whose times moved.
- PayloadMerge.MergeDirectory: for a source inside the destination, or the destination itself, it states only what a failed check leaves, since the outcome then depends on the order of the moves; its one call has a fresh sibling of the destination; chmod cannot fail.
- Squash: git's three-way merge is modelled path by path (a patch expects what it replaces); `develop_map` is an input with the properties its own checks ensure (`SquashSpec.WellFormed`).
- JobProtocol.SoundStep: process identity is exact, so a reused process number is not modelled, and neither is an exception raised inside the fork itself.
- JobState.Terminate: time is the number of looks taken.
- AudioKeepalive: codec names are reduced to whether the codec may be dropped; messages are not part of this model.
- AudioSinkQueue.AudioSink.SetMaxLevel: a call reads the clock once; the settings are inputs already clamped.
- SourceReport.LineStatsFor: splitting text into lines, decoding and the file's extension are inputs.
- RuntimeAudit.Failures: the patterns used for positive runs (resource leaks, native memory errors) are not part of this model.
- TrayGeometry: the two sets of coordinates are sequences, of which only the extremes are used.
- Status and result schemas, containers, the GitHub client, reports and rendering: only easy members.
