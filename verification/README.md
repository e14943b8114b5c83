# Release protocol, demo repository, topology layout, Cloudflare reconciliation: a verified model

This Dafny project models the parts of the repository whose correctness cannot be read off one function, and proves
what they promise over whole runs.

**Capture, rollout, rollback** (`scripts/capture_image_digests.py`, `scripts/rollout_image_digest.py`,
`scripts/revert_image_digests.py`). A cluster is a map from namespace and name to a Deployment, which is a strategy and
a pod template; both are JSON trees, so containers keep their order and every field the scripts do not touch. The class
`Clusters.World` is the scripts' side of it: each `kubectl` command is a step that may be done, be refused by the API
server, fail before or after taking effect, find the shared deadline past, or be cancelled before it starts, and a
creation that fails may leave any part of what it was to create. Every command is recorded with the cluster before and
after it, so a contract speaks of all runs and of every point in them. The loops of the scripts are methods proved
against specification functions (`PlanOf`, `SpecPatches`, `RenderBootstrap`, `RollbackMutations`, ...), and the
theorems are about those functions and about recorded runs. A thread pool is a loop that takes its items in an
arbitrary order.

The main results:

* A plan captured from a cluster, any number of rollouts and rollbacks of it, each stopped anywhere and with any
  failures, then a rollback in which no command faults and no status is late: the captured cluster is back, every
  workload and template of it, except that a container captured under an attested tag is now at the attested digest
  (`Protocol.AttemptsRollBack`, and `Protocol.StoppedRolloutRollsBack` for one rollout). The rollback returns normally
  exactly when the containers outside the rollout's scope were pinned by digest.
* A rollout of the captured repository in which no command faults or expires returns normally exactly when those
  containers were pinned and the manifest suits the plan: all of it when specs are reconciled
  (`ReleaseRuns.ReleaseRun`), what is missing from the cluster when images are set (`ImageReleases.ImageRelease`). A
  normal return means that the repository runs in the plan's containers, at the planned images, and nowhere else.
* In every rollout at most eight existing workloads are changed and unconfirmed (`Rollout.BoundedExposure`), whatever
  fails. No command of a wave is issued before every change of every earlier wave was made and then reported rolled out
  (`Rollout.EarlierWavesConfirmed`); no mutation precedes the checks, starts after the deadline, or outlives it; and
  the scripts cancel a command only after another of the same pool has failed (`Rollout.RollOut`).
* A patched or created workload is the manifest's own, key by key and container by container, but for the images
  (`PatchFacts.OnePatchPerState`, `CreationFacts.CreationsComplete`).

The code decides one thing that its plan format does not suggest: a protected container captured under an attested tag
is recorded with its digest, but no command ever sets that digest. Every rollout of such a plan refuses before its first
mutation (`Protocol.AttestedProtectedRefused`), and a rollback restores everything and then reports failure
(`Restoration.RestoredPassesExactly`). The theorems therefore carry the condition that protected containers were live
by digest, and are exact in it.

**Demo source control** (`src/entrypoints/demo_scm_fixture.py`). A class with an append-only commit graph, branches and
pull requests, the index and the work tree; git may fail at any command. An operation is the list of states it goes
through, and a failed one may end in any of them. Nothing tidies up afterwards, which has consequences:

* What a refused or failed call wrote stays in the work tree, and the next `commit_files` commits it.
  `Fixtures.LeftoverExample` has the calls; `Fixtures.CommitsGivenExactly` the exact condition.
* A file that `put_file` staged before its commit failed rides along with the next one (`Fixtures.StagedRidesAlong`).
* The path check is not stable under repetition: `ScmPaths.RelativeTwiceFails` names inputs, `ScmPaths.RelativeTwice` the
  exact condition on the input. `put_file` normalises once for what it adds and reports and twice for what it compares and
  writes, so it is a compare and swap on one file exactly for the stable paths (`Fixtures.SwapsExactly`).
* A failed `reset` may leave the old pull requests behind without their branches (`DemoScm.Repository.Reset`).

**Topology layout** (`layoutGraph` in `frontend/src/devpreview-topology.tsx`). The queue loop is proved against the
length of the shortest walk, the placement against the columns and rows, and the boxes against each other and the canvas.

**Cloudflare** (`scripts/cloudflare/`). Plans and their application to a live zone, first-match routing, and the DER
reader against ITU-T X.690 (sections 8.1.3 and 10.1). The reader also accepts the long form for lengths 1 to 127, which
section 10.1 forbids: `Der.AcceptedExactly` and `Der.SecondEncoding` say so. Merging a route does not guarantee that the
host reaches it: an earlier wildcard or path rule still wins, exactly as `Cloudflare.HostAnsweredExactly` says.

**Index swaps** (two migrations) and the **interpolated percentile** (two identical copies).

`dafny verify dfyconfig.toml` checks the whole project.

## Model

| member | source | states |
|---|---|---|
| Images.TaggedRepository | scripts/capture_image_digests.py:32-43 | the repository is recovered from any tagged reference, a registry port included |
| Images.PinnedRepository | scripts/capture_image_digests.py:32-43 | the repository is recovered from any reference pinned with `@` |
| Images.TagBeforeDigestIsKept | scripts/capture_image_digests.py:32-43 | a tag written before the digest stays part of the repository, so such a reference never matches its own repository |
| Images.DigestRepository | scripts/capture_image_digests.py:32-43 | every reference the digest pattern accepts has a repository: all but its last 72 characters |
| Images.RepositoryExactly | scripts/capture_image_digests.py:32-43 | the repository of a reference is what stands before its first `@` or, where it has none, before the tag after its last slash; every other reference is refused |
| Images.DigestExactly | scripts/revert_image_digests.py:16 | the references counted as pinned are exactly a repository, the mark and 64 lower-case hexadecimal digits |
| Images.NameExactly | scripts/revert_image_digests.py:14 | a name is one lower-case letter or digit, or two of them with letters, digits, dashes and dots in between |
| Images.ShaExactly | scripts/revert_image_digests.py:17 | a commit is 40 lower-case hexadecimal digits |
| Images.DurationExactly | scripts/revert_image_digests.py:18 | the timeouts accepted are exactly a positive number without leading zeros and a unit |
| Images.TimeoutWritten | scripts/rollout_image_digest.py:505-509 | a timeout lasts that number of seconds, minutes or hours |
| Capture.ParseVerifiedLiveImages | scripts/capture_image_digests.py:46-65 | the attestation loop, against its specification |
| Capture.AttestationExactly | scripts/capture_image_digests.py:46-65 | one attestation is a tag, the first equals sign and something after it, all without white space, and nothing else is |
| Capture.AttestationsMeaning | scripts/capture_image_digests.py:46-65 | accepted attestations pin every given tag to its own digest of the same repository, and nothing else |
| Manifests.ExpectedDeploymentContainers | scripts/capture_image_digests.py:68-109 | the document and container loops, against their specification |
| Manifests.ExpectedExactly | scripts/capture_image_digests.py:68-109 | a manifest is accepted exactly when every Deployment in it is usable, something is managed and nothing twice; the list is then the managed containers in the order of the manifest |
| Manifests.DocumentParts | scripts/capture_image_digests.py:80-97 | name, namespace, template and containers of a document are read from the places Kubernetes gives them |
| Manifests.ExpectedContainersMeaning | scripts/capture_image_digests.py:68-109 | an accepted manifest yields, once each, exactly the managed containers it declares, and every document was well formed |
| Inventories.LiveDeploymentImages | scripts/capture_image_digests.py:112-145 | the inventory loops, against their specification |
| Inventories.ListingShowsCluster | scripts/capture_image_digests.py:112-145 | a listing is accepted exactly when every template in the namespace is readable, and then shows every live image and no other, whatever its order |
| Inventories.InventoryInOrder | scripts/capture_image_digests.py:112-145 | the inventory keeps the order of the listing and, within a workload, of its containers |
| CapturedPlans.RepositoryCapture | scripts/capture_image_digests.py:148-165 | without a manifest the targets are exactly the live containers of the repository, once each and in the order of the listing, each with its own image; nothing is to be created or protected |
| Capture.BuildPlan | scripts/capture_image_digests.py:168-285 | the loops that fill the plan, against their specification |
| CaptureFacts.PlanPartitions | scripts/capture_image_digests.py:168-285 | targets and bootstraps split the expected list in its own order, the protected are what else the repository runs, every image is a digest or an attested one, and the attestations used are exactly those given |
| CaptureFacts.RecordedExactly | scripts/capture_image_digests.py:187-247 | field by field, each target and protected container names the container it was captured from, at its own digest or the one its tag is attested to have |
| CapturedPlans.PlanCoversTargets | scripts/capture_image_digests.py:249-285 | the captured states are, once each and in order of name, the live workloads that own a target, as they are live |
| CapturedPlans.CaptureSucceedsExactly | scripts/capture_image_digests.py:168-285 | capture refuses exactly the inputs its checks name; nothing else can stop it |
| CapturedPlans.CapturedPlanLoads | scripts/capture_image_digests.py:288-303 | a captured plan passes all checks of `load_plan` after being written, and comes back equal, exactly when the recorded names are Kubernetes names |
| Protocol.CapturePlan | scripts/capture_image_digests.py:306-367 | a capture looks up the context, then lists the namespace and does nothing else; it yields the plan of the listing it saw, and fails only for a failed command or check |
| Protocol.CaptureMeaning | scripts/capture_image_digests.py:306-367 | whenever a capture yields a plan, that plan was captured from the cluster in the sense the later theorems need |
| Plans.PlanRoundTrip | scripts/revert_image_digests.py:173-253 | any plan, written, is read back unchanged exactly when it meets every check, and is refused otherwise |
| Plans.OlderRoundTrip | scripts/revert_image_digests.py:173-253 | a file of version 1, 2 or 3 is accepted exactly when the plan in it is well formed, and gives that plan |
| Plans.LoadedFields | scripts/revert_image_digests.py:173-209 | a file that loads is of one of the four versions and has exactly the fields of that version |
| Plans.VersionExactly | scripts/revert_image_digests.py:175-206 | the versions are 1 to 4; a file that says `true` is read as version 1 |
| Plans.LoadedPlanWellFormed | scripts/revert_image_digests.py:173-253 | whatever a file of any version held, a plan that loads is well formed, and a version 4 plan covers its targets |
| Rollback.GroupedTargets | scripts/revert_image_digests.py:318-324 | the targets of each workload in plan order, workloads in the order they first appear |
| Rollback.AttemptEach | scripts/revert_image_digests.py:263-287 | every command of the list is started exactly once and in order, whatever became of the ones before; success means all were done |
| Rollback.WaitForRolloutStatuses | scripts/revert_image_digests.py:360-391 | every status is asked for once, in some order, under one deadline that is the timeout after the wait began: each is started before it or finds it past; success means each was confirmed |
| Rollback.VerifyExactLiveDigests | scripts/revert_image_digests.py:448-462 | the check passes exactly when every target and protected container is live at its planned digest |
| Rollback.VerifyBootstrapTargetsAbsent | scripts/revert_image_digests.py:465-482 | the check passes exactly when no container of a bootstrap workload is live |
| Rollback.ApplyPlan | scripts/revert_image_digests.py:485-522 | once the context is found, every state patch, set-image and delete is started exactly once and in order whatever fails; the statuses share a deadline no earlier than the timeout after the last of the patches and set-images; a normal return means nothing failed and both final checks held; when no command faults and no status begins after that deadline, a cluster that accepts the commands undergoes them all and the checks alone decide the outcome |
| RollbackSemantics.RollbackCommands | scripts/revert_image_digests.py:256-342 | the restoring commands of a plan of any version: each recorded state in plan order, then one command per workload with a target, setting exactly its targets' images, then the deletion of exactly the workloads that were to be created |
| RollbackSemantics.RollbackRestores | scripts/revert_image_digests.py:485-522 | from every state in which targets hold anything and bootstraps may exist, all restoring commands are accepted and give back the captured workloads at the recorded digests |
| Restoration.RestoredPassesExactly | scripts/revert_image_digests.py:448-482 | on the restored cluster the final checks pass exactly when the protected containers were live at their recorded digests |
| Restoration.RestoredIsBeforeExactly | scripts/revert_image_digests.py:485-522 | the restored cluster is the captured one exactly when every target was live at the digest recorded for it |
| Restoration.RollBack | scripts/revert_image_digests.py:485-522 | a rollback begun in any such state, in which no command faults and no status is late, ends in the restored cluster, and returns normally exactly when the protected containers were live by digest |
| Waves.WavesSplit | scripts/rollout_image_digest.py:22-25 | the waves concatenate to the list in order, none is empty or over the bound, only the last falls short of it |
| Waves.WavePosition | scripts/rollout_image_digest.py:22-25 | wave k holds the items from position k times the size on |
| Waves.AtMostEightUnconfirmed | scripts/rollout_image_digest.py:884-915 | a run that keeps its waves never has more than eight workloads changed and unconfirmed |
| RolloutPlanning.RenderBootstrapManifest | scripts/rollout_image_digest.py:32-104 | the rendering loops, against their specification |
| CreationFacts.CreationsComplete | scripts/rollout_image_digest.py:32-104 | the creations come from the manifest, no two under one name, with its strategy, its template and its containers as they are but for the image of the bootstrap containers, and together they hold every bootstrap container |
| Acceptance.RenderBootstrapExactly | scripts/rollout_image_digest.py:32-104 | rendering succeeds exactly when every document is usable, every missing container has its place in one, and no missing workload has two |
| RolloutPlanning.ExistingDeploymentSpecPatches | scripts/rollout_image_digest.py:107-217 | the document loop of the patches, against its specification |
| RolloutPlanning.PatchOneDocument | scripts/rollout_image_digest.py:127-211 | the body of that loop, with its own loop over the containers |
| PatchFacts.OnePatchPerState | scripts/rollout_image_digest.py:107-217 | exactly one patch per captured state, each from the one document that names the workload: its strategy, or the captured one where it has none; its template, unchanged outside the containers; its containers in order, every key of each kept as it is except for the image, which is a digest; no live container dropped |
| Releases.PatchedImage | scripts/rollout_image_digest.py:150-190 | in a patched template a target has the release image, another live container its own image, a new one a pinned image of the manifest |
| Acceptance.SpecPatchesExactly | scripts/rollout_image_digest.py:107-217 | the patches can be computed exactly when every document is usable and each captured workload has one document |
| RolloutWaves.ApplySpecWave | scripts/rollout_image_digest.py:240-300 | in any order of completion only the wave's patches are issued, each once and none late, and one is cancelled only after another of the wave has failed; success means exactly they were applied, and where none faults or expires and the workloads exist there is success |
| Clusters.World.RunWithDeadline | scripts/rollout_image_digest.py:303-319 | a command with a deadline is started before it, with a process timeout that ends exactly at it, and is left unstarted only once it has passed |
| Clusters.World.RunRolloutStatus | scripts/rollout_image_digest.py:512-515 | as above, and kubectl is told to wait at least the time left and less than one second more |
| Clusters.World.RequireDeadline | scripts/rollout_image_digest.py:518-519 | a wave is refused exactly when the deadline has passed at the look at the clock, and then nothing is issued |
| RolloutPlanning.ChecksMeaning | scripts/rollout_image_digest.py:344-442 | both checks depend on the live cluster only, and say of it what they should: closed repository, protected containers unchanged, targets present, bootstraps present or absent |
| Rollout.CreateBootstraps | scripts/rollout_image_digest.py:445-478 | at most one creation is issued, and first; success means the cluster has exactly the rendered workloads added and passed the check again |
| RolloutWaves.WaitForStatusWave | scripts/rollout_image_digest.py:522-556 | only the wave's statuses are asked for, none late, and one is cancelled only after another of the wave has failed; success means each was confirmed, and where none faults or expires there is success |
| RolloutWaves.WaitForRolloutStatuses | scripts/rollout_image_digest.py:559-577 | the same for a list of any length, wave by wave |
| RolloutWaves.ReconcileWaves | scripts/rollout_image_digest.py:884-896 | however the run ends, everything changed and unconfirmed lies in one wave, a command of a later wave follows the confirmation of every earlier patch, and a command is cancelled only after a failure in its own pool; success means exactly the patches were applied and confirmed |
| ImageWaves.SetImageWaves | scripts/rollout_image_digest.py:897-917 | the same for setting images, one container after the other; several containers of one workload may lie in different waves |
| Rollout.RollOut | scripts/rollout_image_digest.py:792-926 | whatever fails, the deadline is the timeout after the start, no mutation precedes the checks, nothing existing is changed before new workloads are up, the waves are kept, nothing is late and nothing is cancelled but after a failure; a normal return means every check passed, every change was made and then reported rolled out, the new workloads too where specs are reconciled, and the cluster is the planned one; only a command that faults or expires, or a check, prevents it |
| Rollout.OptionsExactly | scripts/rollout_image_digest.py:802-808 | what is refused before anything is asked of the cluster: a context with white space, an image that is not pinned, a timeout that is none, specs to reconcile without a manifest or without captured states, evidence without reconciling; nothing else |
| Rollout.NamespaceExactly | scripts/rollout_image_digest.py:829-831 | a rollout has a namespace exactly when there is something to roll out and all of it is in that one |
| Rollout.InTimeIsUndisturbed | scripts/rollout_image_digest.py:303-319 | a rollout in which no command faults and none begins after the deadline has no expired command either, so nothing disturbs it |
| Rollout.BoundedExposure | scripts/rollout_image_digest.py:884-917 | at every point of every rollout at most eight existing workloads are changed and unconfirmed |
| Rollout.EarlierWavesConfirmed | scripts/rollout_image_digest.py:884-917 | when any change is issued, there is an earlier point before which nothing failed and every change of every earlier wave was made and then reported rolled out; waves are counted by position in the planned list |
| Rollout.PlannedOnce | scripts/rollout_image_digest.py:884-917 | no change is planned twice, so the position of a change, and with it its wave, is determined |
| Interruption.RunStaysMixed | scripts/rollout_image_digest.py:792-926 | however commands fail, a run that stays within its plan leaves all other workloads alone and all targets in place at every point |
| Interruption.StoppedRolloutRestorable | scripts/rollout_image_digest.py:792-926 | stopped after any command, a rollout leaves a cluster on which every command of the rollback is accepted and together they restore the capture |
| Interruption.AttemptsRestorable | scripts/revert_image_digests.py:485-522 | the same after any sequence of rollouts and rollbacks of the plan, each stopped after any command |
| Protocol.CapturedFitsExactly | scripts/capture_image_digests.py:168-285 | a captured plan fits its cluster exactly when no workload it would create exists, which follows from what the API server admits |
| Protocol.StoppedRolloutRollsBack | scripts/revert_image_digests.py:485-522 | capture, any part of a rollout with any failures, a rollback in which no command faults and no status is late: the captured cluster is restored, equal to the captured one exactly when the targets were pinned, and the rollback returns normally exactly when the protected containers were |
| Protocol.AttemptsRollBack | scripts/revert_image_digests.py:485-522 | the same after any number of failed or stopped rollouts and rollbacks |
| Protocol.AttestedProtectedRefused | scripts/capture_image_digests.py:229-245 | a protected container captured under an attested tag makes every rollout of the plan refuse before its first mutation |
| ReleaseRuns.ReleaseReadyExactly | scripts/rollout_image_digest.py:344-442 | after a capture, no check of a reconciling rollout of the same manifest and repository can trip exactly when the protected containers are pinned and the manifest suits the plan |
| ReleaseRuns.ReleaseRun | scripts/rollout_image_digest.py:792-926 | such a rollout, if no command faults or expires, returns normally exactly under that condition, and then every change was confirmed and the repository is verified at the new image |
| ImageReleases.ImagesReadyExactly | scripts/rollout_image_digest.py:344-442 | after a capture, no check of a rollout that sets the images of the same repository can trip exactly when the protected containers are pinned and the manifest suits what is to be created |
| ImageReleases.ImageRelease | scripts/rollout_image_digest.py:792-926 | such a rollout, if no command faults or expires, returns normally exactly under that condition, and then every change was confirmed and the repository is verified at the new image |
| ReleaseRuns.VerifiedRepository | scripts/rollout_image_digest.py:344-390 | after a verified rollout the containers of the repository are exactly targets, bootstraps and protected ones, the former two at the new image, the last at their captured one |
| Evidence.Idempotent | scripts/rollout_image_digest.py:600-687 | sanitising sanitised evidence changes nothing more, for every JSON tree |
| Evidence.EvidenceIsPublicPart | scripts/rollout_image_digest.py:600-687 | two specs give equal evidence exactly when they agree wherever nothing is secret: every environment value, argument, secret payload and marked field is hidden, and nothing else |
| Evidence.PullSecretsShown | scripts/rollout_image_digest.py:673-679 | of pull secrets the names are shown, in order, and nothing else |
| ScmPaths.RelativeIsSafe | src/entrypoints/demo_scm_fixture.py:257-265 | an accepted path stays below the root and out of the repository's metadata |
| ScmPaths.RelativeKeeps | src/entrypoints/demo_scm_fixture.py:257-265 | a path of any number of proper, safe parts without white space at its ends is kept as it is |
| ScmPaths.RelativeDrops | src/entrypoints/demo_scm_fixture.py:257-265 | an empty component or a dot, put anywhere inside a path, changes nothing |
| ScmPaths.RelativeTrims | src/entrypoints/demo_scm_fixture.py:258 | nor does white space around it |
| ScmPaths.RelativeRefuses | src/entrypoints/demo_scm_fixture.py:257-265 | a path is refused exactly when it starts at the root or has a component that leads up or into the metadata |
| ScmPaths.JoinSplit | src/entrypoints/demo_scm_fixture.py:257-265 | every string is made up of its components, so the rows above speak of every path |
| ScmPaths.RelativeTwice | src/entrypoints/demo_scm_fixture.py:257-265 | normalising again changes nothing exactly when, after trimming, the first proper part does not start and the last does not end with white space |
| ScmPaths.RelativeTwiceFails | src/entrypoints/demo_scm_fixture.py:257-265 | accepted inputs for which it does change: a dot component before a part that starts with a blank |
| ScmGraph.EffectEvolves | src/entrypoints/demo_scm_fixture.py:77-249 | whatever an operation does and however far it gets: heads stay ancestors, closed requests stay as they are, closed, merged and having a merge commit coincide, numbers run from 1, one open request per head and base |
| ScmGraph.HistoryEvolves | src/entrypoints/demo_scm_fixture.py:77-249 | the same between any two points of any sequence of operations without a reset |
| ScmGraph.ClosedByMerge | src/entrypoints/demo_scm_fixture.py:224-249 | a request closes only by a merge of both heads as they were one step earlier, which are the parents of its merge commit |
| WorkTrees.SwitchClean | src/entrypoints/demo_scm_fixture.py:127 | with nothing pending, switching branches leaves exactly the commit of the new branch in index and work tree |
| Fixtures.CommitsGivenExactly | src/entrypoints/demo_scm_fixture.py:143-157 | a successful `commit_files` commits exactly the given files exactly when the work tree has nothing else that differs from the branch after the switch |
| Fixtures.CleanCommit | src/entrypoints/demo_scm_fixture.py:143-157 | with nothing pending it succeeds exactly when the branch exists and every path is accepted and, in its turn, neither a directory nor below a file; it then commits exactly the files, returns the new head of the branch and leaves nothing pending; refused, it changes no branch |
| Fixtures.CleanCommitParent | src/entrypoints/demo_scm_fixture.py:143-157 | the new commit has the branch's old head for its one parent, and there is none where the files change nothing |
| Fixtures.RefusedFilesCommitted | src/entrypoints/demo_scm_fixture.py:143-157 | a file written before a later path of the same call was refused is committed by the next call |
| Fixtures.LeftoverExample | src/entrypoints/demo_scm_fixture.py:143-157 | `a` and `../b` in one call, then `c`: `a` is committed with `c` |
| Fixtures.PutsGivenExactly | src/entrypoints/demo_scm_fixture.py:107-141 | on a stable path a successful `put_file` commits exactly its file exactly when nothing else is staged that differs from the branch after the switch |
| Fixtures.StagedRidesAlong | src/entrypoints/demo_scm_fixture.py:107-141 | when the commit of one put fails after its add, the next put commits both files |
| Fixtures.SwapsExactly | src/entrypoints/demo_scm_fixture.py:107-141 | a path is stable if and only if, from every state with nothing pending, `put_file` on it is a compare and swap: exactly the matching writer of a writable path succeeds, commits that one file and leaves nothing pending, and a refused one leaves the branch as it was |
| Fixtures.LostUpdateRefused | src/entrypoints/demo_scm_fixture.py:107-141 | of two writers that read the same blob the second is refused exactly when the first changed it |
| Fixtures.PutsElsewhere | src/entrypoints/demo_scm_fixture.py:107-141 | on an unstable path naming two tracked files it compares and writes the one, reports the blob of the other, and commits nothing |
| Fixtures.ElsewhereExample | src/entrypoints/demo_scm_fixture.py:107-141 | a dot component before a part with a leading blank is such a path |
| Fixtures.CleanMerge | src/entrypoints/demo_scm_fixture.py:224-249 | with nothing pending a merge at the reviewed heads succeeds, closes the request with a commit of both heads, returns the head of the base, and leaves nothing pending |
| Fixtures.MergesExactly | src/entrypoints/demo_scm_fixture.py:224-249 | with nothing pending a merge goes through exactly at the reviewed heads; a merged request gives its commit again; everything else is refused and changes nothing |
| DemoScm.Repository.Reset | src/entrypoints/demo_scm_fixture.py:49-65 | a reset seeds one commit of exactly the given files and succeeds exactly when all can be written; the requests are cleared only after that commit, so a failure may leave the old ones, consistently only if there were none, or none |
| DemoScm.Repository.CreateBranch | src/entrypoints/demo_scm_fixture.py:77-84 | an existing branch is never moved, a new one starts at the given commit, and only a bad or clashing name, a bad commit or git itself prevents it |
| DemoScm.Repository.PutFile | src/entrypoints/demo_scm_fixture.py:107-141 | the operation goes through the steps of its specification and ends in the last, or, where git fails, in one of them; every one keeps the history |
| DemoScm.Repository.CommitFiles | src/entrypoints/demo_scm_fixture.py:143-157 | the same for a commit of several files |
| DemoScm.Repository.CreatePullRequest | src/entrypoints/demo_scm_fixture.py:159-190 | the next number for a new head and base, nothing at all when an open request has them |
| DemoScm.Repository.PullRequest | src/entrypoints/demo_scm_fixture.py:204-222 | a recorded request can always be shown, with both current heads |
| DemoScm.Repository.MergePullRequest | src/entrypoints/demo_scm_fixture.py:224-249 | the same for a merge: it takes effect only at the reviewed base and head, and then closes the request; merging again returns the same commit and changes nothing |
| Layout.Search | frontend/src/devpreview-topology.tsx:56-74 | the queue loop ends and gives exactly the reachable ids the length of their shortest walk from a seed |
| Layout.LayoutGraph | frontend/src/devpreview-topology.tsx:51-101 | columns are the lengths of shortest walks: with roots given, an id has length 0 exactly when it is a root and a node has one exactly when a walk from a root reaches it, and with none given the first node alone starts; one column beyond for the rest; rows follow the order of the nodes; every node and nothing else has a box, no two touch, and the canvas is fitted to the last column and the longest one with a margin on all sides |
| Layout.StartsFirst | frontend/src/devpreview-topology.tsx:64-74 | length 0 is for the starts alone, and only what a walk from one of them reaches has a length |
| Layout.RowExactly | frontend/src/devpreview-topology.tsx:81-95 | the row of a node is the number of nodes of its column listed before it |
| Layout.EdgesAdvanceOneColumn | frontend/src/devpreview-topology.tsx:68-74 | no edge out of a reachable node advances more than one column |
| Layout.ShortestUnique | frontend/src/devpreview-topology.tsx:68-74 | the columns are determined by graph and seeds, not by the order of the queue |
| Layout.BoxesApart | frontend/src/devpreview-topology.tsx:81-95 | the boxes of two different nodes never touch |
| Layout.BoxOnCanvas | frontend/src/devpreview-topology.tsx:88-100 | every box lies on the canvas with the margin on all four sides |
| Der.DerChildren | scripts/cloudflare/configure_dev_mtls.py:112-118 | the offset loop ends and reads what the recursive reading reads |
| Der.AcceptedExactly | scripts/cloudflare/configure_dev_mtls.py:90-109 | the encodings accepted for a value: the short form below 128, the shortest long form up to four octets, and no others |
| Der.ChildrenTile | scripts/cloudflare/configure_dev_mtls.py:112-118 | a content is accepted exactly when accepted encodings tile it without gap or overlap, and then the values are theirs |
| Der.DecodeEncode | scripts/cloudflare/configure_dev_mtls.py:90-118 | decoding the concatenated encodings of any list of values gives back the list |
| Der.SecondEncoding | scripts/cloudflare/configure_dev_mtls.py:97-104 | a value of length 1 to 127 has two accepted encodings |
| Der.ValidateSignedDer | scripts/cloudflare/configure_dev_mtls.py:121-132 | the check of signed objects, against its specification |
| Der.SignedExactly | scripts/cloudflare/configure_dev_mtls.py:121-132 | an accepted object is one sequence tiled by signed part, algorithm and bit string, and the signed part of a request is tiled by its four parts |
| Cloudflare.MergeRoutes | scripts/cloudflare/configure_dev_mtls.py:180-213 | after a merge the hostname has exactly one whole-host rule, it points at the service, and only that rule was changed, or added before the first catch-all |
| Cloudflare.MergeExactly | scripts/cloudflare/configure_dev_mtls.py:180-213 | rules can be merged exactly when the hostname has at most one whole-host rule, and none only where a catch-all leaves a place for it |
| Cloudflare.ConfigMerged | scripts/cloudflare/configure_dev_mtls.py:180-213 | of a configuration only the ingress is changed, and that as its rules are merged; it is refused exactly where the service is none, the ingress is no list of rules, or the rules cannot be merged |
| Cloudflare.MergeTwice | scripts/cloudflare/configure_dev_mtls.py:180-213 | merging the merged configuration is unchanged |
| Cloudflare.OtherHostsUnchanged | scripts/cloudflare/configure_dev_mtls.py:180-213 | every request to another host is answered by the same rule as before |
| Cloudflare.HostAnsweredExactly | scripts/cloudflare/configure_dev_mtls.py:180-213 | a request to the host reaches its rule exactly when no earlier rule takes it |
| Reconciliation.CreatedIsFixed | scripts/cloudflare/configure_dev_mtls.py:226-240 | after a created DNS record re-planning is unchanged, in both scripts, and no other record is touched |
| Reconciliation.ReplacedIsFixed | scripts/cloudflare/reconcile_tunnel_route.py:58-80 | after an updated one likewise |
| Reconciliation.PlannersAgreeExactly | scripts/cloudflare/reconcile_tunnel_route.py:58-80 | on lower-case data with ids the two scripts' planners agree exactly when the one record of that name is not of another type |
| Reconciliation.PlanDnsExactly | scripts/cloudflare/configure_dev_mtls.py:226-240 | create where no record has the name, refuse where two have; otherwise each script's own refusal, or keep exactly a proxied record of the same type, content and lifetime, or update |
| Reconciliation.AssociationsFixed | scripts/cloudflare/configure_dev_mtls.py:243-247 | a merged association list keeps the others in order, has the hostname added exactly when none of them is it, and is not merged again |
| Reconciliation.PlanWafExactly | scripts/cloudflare/configure_dev_mtls.py:260-283 | nothing is done exactly when the desired rule is first and no other carries its reference, one is created exactly when none does |
| Reconciliation.UpdatedIsFixed | scripts/cloudflare/configure_dev_mtls.py:260-283 | a patched firewall rule ends up first and as desired, so re-planning keeps it; other rules keep their order |
| Reconciliation.CreatedRuleIsFixed | scripts/cloudflare/configure_dev_mtls.py:260-283 | so does a created one |
| Zones.Zone.ApplyConfiguration | scripts/cloudflare/configure_dev_mtls.py:526-608 | a complete run reaches the fixed point; a run cut short leaves a state the next can start from; at the fixed point nothing is sent; others' records, names and rules survive in order |
| Zones.ConvergedExactly | scripts/cloudflare/configure_dev_mtls.py:526-608 | the fixed point is exactly: the tunnel routes the host, its name resolves to the tunnel, the certificate applies to it and is required of every client |
| Zones.Zone.ReconcileRoute | scripts/cloudflare/reconcile_tunnel_route.py:188-238 | the same for the route script, and its convergence error is never raised |
| IndexSwap.Database.DropInvalid | alembic/versions/20260719_0500_timeline_capture_projection.py:35-54 | a valid index is never dropped by the cleanup, and no other index changes |
| IndexSwap.Database.CreateWithBoundedRetry | alembic/versions/20260719_0500_timeline_capture_projection.py:62-75 | at most four builds, each but the first after a lock timeout; it gives up at the fourth lock timeout or at the first failure of another kind, and for no other reason; a normal return means the named index is valid, and an index that was valid stays so throughout |
| IndexSwap.Swap | alembic/versions/20260718_0400_timeline_capture_observed_at.py:102-138 | the other index is dropped only once this one is valid; at every point one of them serves; only a failing statement, or the fourth lock timeout, prevents a normal return |
| IndexSwap.Upgrade | alembic/versions/20260719_0500_timeline_capture_projection.py:78-100 | however statements fail and wherever it stops, one of the two indexes is valid throughout; a normal return leaves only the new one |
| IndexSwap.Downgrade | alembic/versions/20260719_0500_timeline_capture_projection.py:103-119 | likewise to the end, where dropping the column takes along only indexes that use it |
| IndexSwap.RunMigrations | alembic/versions/20260719_0500_timeline_capture_projection.py:78-119 | the same over any number of runs in either direction, each possibly cut short |
| IndexSwap.BothWellPosed | alembic/versions/20260718_0400_timeline_capture_observed_at.py:102-138 | both migrations have the shape the above needs |
| Percentiles.DefinedExactly | benchmarks/payload_lab/compare_runs.py:54-62 | it raises exactly when the rank, truncated, leaves the list, counted from either end |
| Percentiles.OrderIrrelevant | benchmarks/payload_lab/compare_runs.py:54-62 | it depends on the samples as a multiset only |
| Percentiles.PercentileBounds | benchmarks/payload_lab/compare_runs.py:54-62 | on the unit interval it lies between the smallest and the largest sample |
| Percentiles.PercentileMonotone | benchmarks/payload_lab/compare_runs.py:54-62 | it never decreases in its argument, across the joints between segments as well |
| Percentiles.PercentileAtRank | benchmarks/payload_lab/soak.py:21-29 | where the argument times one less than the length is whole, it is that order statistic |
| Percentiles.PercentileBetween | benchmarks/payload_lab/compare_runs.py:54-62 | elsewhere it lies between the two neighbouring order statistics, as far along as the rank is |
| Percentiles.PercentileEnds | benchmarks/payload_lab/soak.py:21-29 | at 0 and 1 it is the minimum and the maximum |

## Left out

- Every exception is one `Err`; messages, printed counts and return codes are not modelled.
- Outside writers of the cluster, server-side defaulting and admission beyond `Protocol.Admissible` (valid names, at least one container), and anything that makes a live template differ from the one last written.
- YAML and JSON text, file descriptors and file modes; documents are parsed trees, duplicate keys do not occur, and a live item always has a name, a strategy and a template.
- Comparing the context name `kubectl` prints is part of the success of that command.
- Regular expressions are predicates on strings; white space and case are ASCII only.
- The spec difference document: only its drift check and the sanitising of its contents are modelled.
- Protocol.AttemptsRollBack: the last rollback itself has no fault and no late status here; what a disturbed one still attempts is stated by `Rollback.ApplyPlan`.
- DemoScm.Repository.MergePullRequest: what git makes of the two trees is arbitrary, and a conflicting merge has no effect; the merge state it leaves in the work tree is not part of this model.
- DemoScm.Repository.Reset: after a reset that failed with old requests left behind, the contracts of the other operations say nothing until the next reset.
- DemoScm.Repository.CommitFiles: a git command takes effect wholly or not at all, a query answers truthfully or fails, and a file is written wholly or not at all.
- Branch-name normalisation, ignored files, pathspec magic, symbolic links, `list_pull_requests`, the HTTP routes and their token checks.
- Blob and commit hashes: a blob is named by its content and a commit by its position.
- DNS records, hostname associations and firewall rules are typed values; the URL check of the origin service and the path patterns of ingress rules are parameters; API retries, pagination and certificate issuance are not modelled.
- Zones.Zone.ApplyConfiguration: the live records and rules have distinct ids, as the service gives them; the refusal of a record without an id shows only in the planners.
- IndexSwap.Upgrade: the retired index must not use the column the migration adds, which holds for both migrations; offline SQL mode and how a lock timeout is recognised are not modelled.
- Percentiles.PercentileBounds: over the reals; floating-point rounding is not modelled. The fixed rank in `docker_summary` is a bound on one index and was not worth a member.
- React components, dragging, data feeds, DAGs, catalogue scripts, smoke and deploy scripts, table-creating migrations.
