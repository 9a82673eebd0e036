# Verified model of the ESOS SAN web UI decision logic

This project models the parts of the web UI that decide things about a storage cluster, and proves what
those decisions mean. SSH, SQLite, Vue and the texts shown to the user are outside. The loops that build a
result step by step or change objects are loops here, specified by a function of their inputs; the properties
are proved about those functions. Loops that only search for an element, or collect names into a set before
the work begins, are functions and predicates. Stateful stores are classes whose methods are specified by a
step function, and the properties hold of every run of steps.

`dafny verify dfyconfig.toml` checks all of it.

## What is modelled

- **ALUA cluster configuration.** `AluaModel` and `AluaCompare` are the snapshots and the checker,
  `AluaPlan` the planner, `AluaPreflight` the gate, `AluaApply` the ordered two-node apply, `PlanToken` the
  one-time tokens. `AluaVerdict`, `AluaExact`, `AluaPlanChecked` and `AluaExclusive` hold the theorems,
  `AluaEmptyName` and `AluaGateCases` inputs at which their conditions fail.
- **LVM.** `LvmPath` (device-mapper names and paths), `LvmSymmetry`, `LvmVerdict`, `LvmCluster` (comparing
  nodes), `LvmAvailability` (SCST linkage), `LvmPlanner` (the recommended next action).
- **MD arrays.** `MdSymmetry` and `MdVerdict` (comparing nodes), `RaidPoll` (progress polling).
- **Filesystems.** `ActiveMount` (which mount to work on), `FsChain` and `FsAgreement` (next action against
  step statuses), `FsMerge` (partial refreshes).
- **Hardware RAID.** `HwRaid` and `HwRaidSafety` (marking block devices in place).
- **Runtime.** `ProbeSections` (splitting probe output), `Polling` (the poller registry), `SingleFlight`
  (coalescing), and the helpers `Sequences`, `Collation`, `Text`.

Locale comparison is any total order on strings, and `sort` the sorted permutation. Requests, SSH writes,
timers, authentication, the current route and the clock are parameters or events. Sizes and counts are
mathematical integers; the one-percent size tolerance is an exact ratio.

## Findings

Where the code does less than its names promise, the code is kept and the exact condition is proved.

- *ALUA verdict.* For the names the sysfs reader yields, unique and made of non-empty path segments, `ok` means a
  symmetric cluster (`VerdictExact`); they may contain the separator `|`.
- *ALUA plan.* The preview of a plan is `ok` exactly when its two target-group names differ and are both or
  neither of `local` and `remote`, in either order (`PlannerMeetsChecker`).
- *ALUA apply.* The comment promises the peer first. Members are read again when the plan is applied, and a
  peer that is no longer a member is skipped silently, so the primary is then written first; this is the only
  way (`PeerFirstExact`, `PeerSkippedExample`).
- *ALUA gate.* For configurations parsed from `scst.conf`, creating a group behind an open gate puts every local
  target into exactly one device group. Replacing one does so exactly unless a later group of the same name lists
  the target, which the gate does not see (`LocalTargetsOnce`, `RepeatedNameDoubles`). The parser keeps repeated
  names, and the program can write them itself: the gate checks the trimmed name while the plan uses the name as
  given, so the planned name is valid exactly when it has no white space around it (`GateNameExact`,
  `PaddedNameExample`).
- *MD symmetry.* The second search for arrays missing on a peer never finds anything (`SecondPassRedundant`).
  An array that is active on one of two nodes only is reported missing by that node and symmetric by the other
  (`TwoNodeViews`, `MdVerdict.OneSidedExample`).
- *LVM symmetry.* Over the same nodes with unique names, the cross-node name checks find something only when the
  pairwise checks do (`CrossChecksRedundant`), and only about groups those report as well (`CrossIssuesNamed`).
  With three nodes they do name a node the pairwise checks leave out (`CrossIssueExample`).
- *LVM planner.* From nothing but a source it takes four steps, not three plus the number of unlinked volumes;
  `FollowingTerminates` gives the exact number, and completion can always be reached (`CompletionReachable`). While
  volumes remain to be linked, the chain may show the SCST step as done (`ChainHidesBinding`,
  `HiddenBindingExample`).
- *Cluster SCST state.* `EnrichedAgrees` says for all volumes and nodes when the enriched row and the count over
  the nodes agree. For copies that are never linked without a device name, as both of their producers make
  them, and with a ready node, they differ exactly when the row has device names of its own and no ready node
  reports any (`EnrichedAgreesNamed`).
- *FILEIO views.* All four steps are done and still exposing is recommended exactly when no LUN lies in the
  scope of the mount, which needs a stale `mapped` flag (`AllCreatedNext`, `ViewsAgree`,
  `StaleFlagExample`). The detail of the fileio step says done exactly when its status does, except for a single
  virtual disk whose device is not on the mount (`DetailMatchesStatus`, `DeviceMissingExample`).
- *Hardware RAID.* No disk of the inventory that a logical drive occupies stays eligible for MD or for partition
  preparation (`InventoryDiskExact`). A path given as `disk/by-id/...` is normalized to one
  that is not stable under normalizing again (`NormalizeStable`).
- *Device-mapper names.* A name reads back exactly when the volume's name has no leading hyphen
  (`DecodeDeviceName`); with one it always collides (`LeadingHyphenCollides`).
- *Probe output.* `echo` ends the marker line, so bodies may end in `%`; only `%%` must not occur in them
  (`SectionOfFrames`). The two copies of the splitter differ on other texts (`VariantsDiffer`).
- *Filesystem refreshes.* Of two overlapping refreshes a partial second one that finds nothing undoes what the
  first one did to the list: what it found is lost, and what a full one found gone is shown again
  (`OverlapExact`, `OverlapExample`, `GoneMountExample`).
- *RAID polling.* Requests overlap exactly in the runs that send an ordinary request while another one is under way
  (`OneRequestExact`). One flag serves all of them, so after an ordinary request fails the interval may send a
  second silent request beside the first (`AnswerOpensGate`, `SilentOverlap`). Answers carry no SAN: requests
  under way ask for the SAN that is set exactly in the runs that change it only while none is under way
  (`OwnRequestsExact`), and otherwise the overview of one SAN may be shown for another (`ShownExact`,
  `ForeignShown`).
- *Pollers.* Registering without unregistering leaks a running handle (`RawRegisterExact`); the page
  functions never do (`Polling.RunSound`). A page that registers after everything was stopped starts its
  poller all the same (`RegisterAfterStop`).
- *Single flight.* Clearing a key whose work is under way breaks the coalescing (`ClearExact`,
  `ClearBreaksCoalescing`).

Three assumptions about names are discharged by the readers, and what would happen without them is proved too. If a
target group could have the empty name, `ok` would mean symmetry up to such groups, and equal fingerprints
(`VerdictUnique`), so a single empty-named group could go unnoticed where nothing else tells the nodes apart
(`EmptyNameEscapes`). If a group of `scst.conf` could be unnamed, the gate would open and the target be listed
twice (`UnnamedGroupDoubles`); beside this and repeated names there is no other way (`LocalTargetsExclusive`).
Neither can be read: `server/utils/parsers/alua.parser.ts:58-80` drops empty path segments, and
`server/utils/scst-conf-parser.ts:85` requires a name. If a disk could be listed under another path than its name
below `/dev`, a drive could occupy it by name alone and leave it eligible for partition preparation
(`NameOnlyExample`); `lsblk` lists disks under their names, and `server/utils/raid-overview.service.ts:268` fills in
that path where none is given.

## Model

| member | source | states |
|---|---|---|
| AluaModel.FlattenAluaGroups | server/utils/alua-model.ts:19-33 | one row per target group, in the order of the groups |
| AluaCompare.UnionDeviceGroupNames | server/utils/alua-cluster-compare.ts:149-155 | the sorted distinct device-group names of all nodes |
| AluaCompare.UnionTargetGroupNames | server/utils/alua-cluster-compare.ts:165-172 | the sorted distinct target-group names of one device group |
| AluaCompare.DeviceGroupSetsMatch | server/utils/alua-cluster-compare.ts:157-163 | true exactly when the joined sorted names of every node are those of the union |
| AluaCompare.TargetGroupSetsMatch | server/utils/alua-cluster-compare.ts:174-181 | the same for the target groups of one device group |
| AluaCompare.CheckStateDivergence | server/utils/alua-cluster-compare.ts:187-210 | appends one warning per target group that has two states |
| AluaCompare.CheckLocalRemotePair | server/utils/alua-cluster-compare.ts:212-236 | appends a manual review when all roles are unknown, else a missing pair, for each node without local and remote |
| AluaCompare.CheckReversedGroupIds | server/utils/alua-cluster-compare.ts:238-268 | appends an issue exactly when both pairs carry ids that are not swapped |
| AluaCompare.SetsEqual | server/utils/alua-cluster-compare.ts:346-350 | true exactly when the two sorted lists are equal |
| AluaCompare.CheckTargetAssignment | server/utils/alua-cluster-compare.ts:274-314 | appends an issue when non-empty local and remote targets do not cross-match, in either direction |
| AluaCompare.CheckInvalidTargetRefs | server/utils/alua-cluster-compare.ts:316-344 | appends an issue per target that the node's configuration does not define |
| AluaCompare.CompareFingerprints | server/utils/alua-cluster-compare.ts:352-382 | adds a divergence when two non-empty fingerprints differ and nothing structural was found |
| AluaCompare.CompareAluaCluster | server/utils/alua-cluster-compare.ts:36-147 | the whole checker: below two ready nodes no comparison, else all passes in order and the verdict |
| AluaVerdict.NodeCodes | server/utils/alua-cluster-compare.ts:36-138 | which condition on the nodes raises which code, for every code |
| AluaVerdict.HealthByCodes | server/utils/alua-cluster-compare.ts:140-147 | the verdict depends on the set of codes alone |
| AluaVerdict.FingerprintCodes | server/utils/alua-cluster-compare.ts:352-382 | the fingerprint pass raises a divergence exactly when two non-empty fingerprints differ and no structural code is there |
| AluaVerdict.VerdictOrderFree | server/utils/alua-cluster-compare.ts:36-147 | permuting the nodes changes neither the verdict nor the set of codes, for any number of ready nodes |
| AluaExact.FingerprintPassNeutral | server/utils/alua-cluster-compare.ts:352-382 | with two ready nodes and the names the reader yields, the fingerprint pass never changes the verdict |
| AluaExact.VerdictUnique | server/utils/alua-cluster-compare.ts:36-147 | for all unique names, ok exactly when at least two nodes are ready, they are symmetric up to target groups with the empty name, and no two non-empty fingerprints differ |
| AluaExact.VerdictExact | server/utils/alua-cluster-compare.ts:36-147 | for unique, non-empty names, ok exactly when at least two nodes are ready and they are symmetric: names, states, roles, references, ids and targets |
| AluaEmptyName.EmptyNameEscapes | server/utils/alua-cluster-compare.ts:165-181 | two nodes with one device group that differ only in a target group with the empty name pass as ok, though no reader yields such a name |
| AluaPlan.ScstConfig.UpsertDeviceGroup | server/utils/alua-scst-config.ts:41-56 | the group replaces the first of its name, or is appended, or is refused in create mode; nothing else changes |
| AluaPlan.FindTargetInOtherDeviceGroups | server/utils/alua-scst-config.ts:27-39 | the name of the first group, other than the excepted one, that lists the target |
| AluaPlan.ResolveExact | server/utils/alua-wizard-plan.ts:26-44 | a primary and a peer are found exactly among two nodes with different ids that include the requested primary; the primary is the requested node, else the first |
| AluaPlan.NodePlanExact | server/utils/alua-wizard-plan.ts:81-116 | a node can be planned exactly when it has every target assigned to either node as local and no group of the name that may not be replaced |
| AluaPlan.PlansMirror | server/utils/alua-wizard-plan.ts:46-116 | the two planned groups mirror each other: same names and devices, ids on opposite sides, each node's local targets the other's remote ones, and these are exactly the assigned ones |
| AluaPlan.BuildNodePlanFor | server/utils/alua-wizard-plan.ts:81-116 | the plan made by changing a copy of the configuration in place; the given one stays as it is |
| AluaPlan.BuildClusterPlan | server/utils/alua-wizard-plan.ts:118-142 | primary first, then peer, each with its own group, and the checker's view of both |
| AluaPlanChecked.PlannerMeetsChecker | server/utils/alua-wizard-plan.ts:46-142 | every plan's preview is ok exactly for good target-group names, else asymmetric; with the standard names nothing is reported |
| AluaPreflight.RunAluaWizardPreflight | server/utils/alua-wizard-preflight.ts:28-157 | the gate: all blockers and warnings in order, and ok exactly without blockers |
| AluaExclusive.GroupOfTargetExact | server/utils/alua-scst-config.ts:27-39 | nothing is found exactly when no group but the excepted one lists the target |
| AluaExclusive.UpsertExclusive | server/utils/alua-scst-config.ts:41-56 | after putting a group in, its target is listed once exactly when no group but the replaced one lists it, whether names repeat or not |
| AluaExclusive.LocalTargetsOnce | server/utils/alua-wizard-preflight.ts:90-125 | after an open gate on parsed configurations, planning succeeds and all other groups are untouched; a local target is listed by exactly one group when creating, and when replacing exactly unless a later group of the same name lists it |
| AluaExclusive.LocalTargetsExclusive | server/utils/alua-wizard-preflight.ts:90-125 | for all configurations: listed once exactly unless an unnamed group or a later group of the same name lists the target |
| AluaExclusive.GateNameExact | server/utils/alua-wizard-preflight.ts:60-66 | after an open gate the planned groups have a valid name exactly when the given name equals its own trim |
| AluaGateCases.RepeatedNameDoubles | server/utils/alua-wizard-preflight.ts:90-125 | two groups of the same name, the second listing the target: the gate opens for a replacement and the target is listed twice |
| AluaGateCases.PaddedNameExample | server/utils/alua-wizard-preflight.ts:60-66 | a blank before the name of an existing group: the gate opens and the group is planned under an invalid name |
| AluaGateCases.UnnamedGroupDoubles | server/utils/alua-wizard-preflight.ts:90-125 | with an unnamed group, which the parser never yields, the gate opens and the target is listed twice |
| AluaApply.RunOrder | server/utils/alua-cluster-apply.ts:33-65 | the loop over peer and primary with its skips and its break |
| AluaApply.ApplyAluaClusterPlan | server/utils/alua-cluster-apply.ts:11-65 | the guards, then the ordered run; ok exactly without errors and with all attempts successful |
| AluaApply.NothingAfterFailure | server/utils/alua-cluster-apply.ts:33-65 | in every run nothing is attempted after a failure |
| AluaApply.PeerFirstExact | server/utils/alua-cluster-apply.ts:33-65 | the primary is never reached before a successful peer write exactly when the peer is covered or the primary is not |
| AluaApply.PeerSkippedExample | server/utils/alua-cluster-apply.ts:33-65 | members without the peer: the primary is written at once, and the run is ok |
| AluaApply.OkExact | server/utils/alua-cluster-apply.ts:33-65 | ok exactly when every covered node was written |
| AluaApply.OkMeansBothWritten | server/utils/alua-cluster-apply.ts:33-65 | with both nodes still members, ok exactly when both were written |
| PlanToken.TokenStore.IssuePlanToken | server/utils/alua-plan-token.ts:7-15 | the token maps to the plan until its time is over |
| PlanToken.TokenStore.ConsumePlanToken | server/utils/alua-plan-token.ts:17-23 | the plan if it has not expired; the entry goes either way |
| PlanToken.TokenStore.PeekPlanToken | server/utils/alua-plan-token.ts:25-29 | the same answer without removing the entry |
| PlanToken.StoreExact | server/utils/alua-plan-token.ts:7-29 | after any run the store holds exactly the entries issued and neither consumed nor replaced since |
| PlanToken.AnswerExact | server/utils/alua-plan-token.ts:7-29 | a token yields a plan exactly when it was issued for it, not consumed since, and has not expired |
| PlanToken.ConsumedOnce | server/utils/alua-plan-token.ts:17-23 | between two successful consumptions of a token it was issued again |
| LvmPath.DecodeDeviceName | utils/lvm-lv-path.ts:3-13 | a left-to-right decoder recovers group and volume exactly when the volume's name has no leading hyphen |
| LvmPath.DeviceNameInjective | utils/lvm-lv-path.ts:3-13 | on such names the device-mapper name identifies the volume |
| LvmPath.LeadingHyphenCollides | utils/lvm-lv-path.ts:3-13 | every name with a leading hyphen collides with another volume's |
| LvmPath.BuildLvPathCandidates | utils/lvm-lv-path.ts:19-38 | the candidate paths in their order |
| LvmPath.BackingPathIsCandidate | utils/lvm-lv-path.ts:19-67 | candidates are distinct and absolute, the chosen path is one of them and lies under /dev |
| ProbeSections.SplitAdvStorageSections | server/utils/advanced-storage-collector.ts:88-96 | one entry per section but the end marker, each with its own text |
| ProbeSections.MarkersOnlyAtFrames | server/utils/cluster-reader.ts:50-61 | in framed output a marker occurs only where its frame starts |
| ProbeSections.SectionOfFrames | server/utils/cluster-reader.ts:52-61 | both splitters give the trimmed body of every framed section, and nothing for sections that were not printed |
| ProbeSections.ClusterProbeReadBack | server/utils/cluster-reader.ts:50-61 | the cluster probe's sections are read back |
| ProbeSections.StorageProbeReadBack | server/utils/advanced-storage-collector.ts:77-96 | the storage probe's sections are read back |
| ProbeSections.VariantsDiffer | server/utils/advanced-storage-collector.ts:77-86 | on any text, exactly when the two splitters differ |
| LvmSymmetry.FindLvmStructuralIssues | utils/lvm-cluster-symmetry.ts:18-73 | clustered groups, missing groups, differing counts of physical volumes, extra groups, in order |
| LvmSymmetry.AssessLocalSymmetricLvm | utils/lvm-cluster-symmetry.ts:157-213 | the structural issues, then free space and volumes of every group against every peer |
| LvmVerdict.AssessExact | utils/lvm-cluster-symmetry.ts:157-213 | with unique names, no issue exactly when nothing is clustered and every peer agrees on groups, counts, volumes and sizes |
| LvmVerdict.VerdictSymmetric | utils/lvm-cluster-symmetry.ts:157-213 | the verdict on two nodes does not depend on which is called local |
| LvmVerdict.ToleranceTwice | utils/lvm-cluster-symmetry.ts:9-16 | sizes that agree with a third are within twice the tolerance of each other |
| LvmVerdict.PeersBounded | utils/lvm-cluster-symmetry.ts:157-213 | without issues, any two peers' sizes are within twice the tolerance of the largest copy |
| LvmCluster.FindCrossNodeVgNameMismatch | utils/lvm-cluster-symmetry.ts:76-104 | an issue per node that lacks a plain group some other node has |
| LvmCluster.FindCrossNodeLvNameMismatch | utils/lvm-cluster-symmetry.ts:107-132 | the same for the volumes of one group |
| LvmCluster.AssessClusterSymmetricLvm | utils/lvm-cluster-symmetry.ts:134-155 | the local assessment followed by the cross-node checks |
| LvmCluster.CrossChecksRedundant | utils/lvm-cluster-symmetry.ts:134-155 | over the same nodes the cluster assessment is empty exactly when the local one is |
| LvmCluster.CrossIssuesNamed | utils/lvm-cluster-symmetry.ts:76-155 | every issue of the cross-node checks is about a group that the pairwise checks report too |
| LvmCluster.CrossIssueExample | utils/lvm-cluster-symmetry.ts:76-104 | three nodes of which the cross-node checks name one the pairwise checks do not |
| MdSymmetry.CompareSnapshotsForArray | utils/cluster-md-symmetry.ts:217-329 | the issues of every active copy against the first one |
| MdSymmetry.BuildActiveMdNodeReports | utils/cluster-md-symmetry.ts:180-215 | one report per node from its first array of the name, clean or active counting as running |
| MdSymmetry.CollectCopies | utils/cluster-md-symmetry.ts:352-378 | the active copies, and a missing issue per peer without one |
| MdSymmetry.CheckPeersAgain | utils/cluster-md-symmetry.ts:380-396 | the second pass over the peers, each judged by the issues found so far |
| MdSymmetry.FindLocalSymmetricStructuralIssues | utils/cluster-md-symmetry.ts:331-416 | one result per array that is active somewhere |
| MdSymmetry.FindClusterUuidMismatches | utils/cluster-md-symmetry.ts:418-450 | in shared-identity mode one mismatch per array with several identities, else none |
| MdVerdict.SecondPassRedundant | utils/cluster-md-symmetry.ts:380-396 | the second pass never adds an issue |
| MdVerdict.IssuesExact | utils/cluster-md-symmetry.ts:406-412 | removing repeated keys loses no issue |
| MdVerdict.SymmetricExact | utils/cluster-md-symmetry.ts:331-416 | symmetric exactly when no peer misses a locally active array and all active copies agree with the first |
| MdVerdict.LocallyActiveExact | utils/cluster-md-symmetry.ts:217-416 | a locally active array is symmetric exactly when every other node's first array of the name is active and agrees with the local one |
| MdVerdict.TwoNodeViews | utils/cluster-md-symmetry.ts:331-416 | with unique array names, two nodes give the same verdict exactly when the array is active on both |
| MdVerdict.OneSidedExample | utils/cluster-md-symmetry.ts:331-416 | an array of one node only: missing from its own view, symmetric from the other |
| MdVerdict.NodeCountRedundant | utils/cluster-md-symmetry.ts:158-178 | several distinct UUIDs need as many holders |
| MdVerdict.SharedIdentityExact | utils/cluster-md-symmetry.ts:418-450 | a mismatch is reported exactly when two nodes hold clean or active copies with different UUIDs |
| MdVerdict.SharedIdentityAnyNode | utils/cluster-md-symmetry.ts:418-450 | the mismatches do not depend on which node is local |
| ActiveMount.ClassifyMountRole | utils/fs-mount-classifier.ts:22-40 | system exactly for system paths, data exactly for other paths under a root or above a file |
| ActiveMount.CandidateExact | utils/fs-active-filesystem.ts:65-76 | the second clause about bare roots never rejects |
| ActiveMount.SomeCandidate | utils/fs-active-filesystem.ts:65-78 | some candidate is always left |
| ActiveMount.PickBest | utils/fs-active-filesystem.ts:61-83 | unrequested, a best candidate is chosen: free space, then path length, then collation |
| ActiveMount.BareRootAvoided | utils/fs-active-filesystem.ts:61-83 | unrequested, a bare root with a child is never chosen |
| ActiveMount.PickOrderFree | utils/fs-active-filesystem.ts:40-84 | with distinct mount points the choice does not depend on the order of the mounts |
| ActiveMount.PickSound | utils/fs-active-filesystem.ts:40-60 | a choice exists exactly when data is mounted; requests win, the new mount before the preferred one |
| FsChain.BuildFsProvisioningSteps | utils/fs-provisioning-chain.ts:125-215 | the four steps with statuses, counts, hints and details; without an overview the empty ones |
| FsAgreement.AllCreatedOn | utils/fs-provisioning-chain-aggregate.ts:209-248 | on a mount all steps are done exactly when it holds virtual disks and devices, every disk has a device and every device is mapped |
| FsAgreement.CreatedNeedsMount | utils/fs-provisioning-chain.ts:135-152 | all steps done means that a mount was chosen |
| FsAgreement.MappedCoincides | utils/fs-provisioning-chain-aggregate.ts:18-68 | a device of the mount is mapped through the scoped LUNs exactly when it is through all of them |
| FsAgreement.AllCreatedNext | utils/fs-provisioning-chain.ts:28-114 | with all steps done nothing is recommended exactly if some LUN lies in the scope, else exposing |
| FsAgreement.StaleFlagExample | utils/fs-provisioning-chain.ts:28-206 | a device flagged as mapped without any LUN: all steps done, and exposing recommended |
| FsAgreement.NothingLeftCreated | utils/fs-provisioning-chain.ts:28-114 | nothing recommended on a mount with virtual disks and devices means that all steps are done |
| FsAgreement.ViewsAgree | utils/fs-provisioning-chain.ts:28-206 | with matching flags: all steps done exactly when nothing is recommended and disks and devices exist |
| FsAgreement.BindExact | utils/fs-provisioning-chain.ts:60-79 | binding is recommended exactly when data is mounted and the fileio step is next |
| FsAgreement.CreateVdiskExact | utils/fs-provisioning-chain.ts:51-58 | creating a virtual disk is recommended exactly when data is mounted, the vdisk step is next and the fileio step missing |
| FsAgreement.DetailMatchesStatus | utils/fs-provisioning-chain-aggregate.ts:100-164 | for any number of virtual disks, the fileio detail says done exactly when its step is done, unless a single disk has no device on the mount |
| FsAgreement.DeviceMissingExample | utils/fs-provisioning-chain-aggregate.ts:126-147 | a single disk whose device is elsewhere: the step is done, its detail says the device is missing |
| FsMerge.MergeKinds | utils/fs-overview-merge.ts:30-34 | per kind the greater count, kinds of either scan |
| FsMerge.CollectWarnings | utils/fs-overview-merge.ts:9-17 | the distinct non-empty warnings in order |
| FsMerge.FsStore.FinishFetch | stores/fs.ts:102-125 | success merges into what was read at the start, failure keeps the overview |
| FsMerge.FsStore.FetchOverview | stores/fs.ts:102-125 | one refresh extends the run by its outcome |
| FsMerge.ListsExact | utils/fs-overview-merge.ts:65-87 | after any run, every list is the latest non-empty one since the last full refresh |
| FsMerge.CountsExact | utils/fs-overview-merge.ts:19-62 | every count, per kind too, is the greatest among those scans that carry diagnostics |
| FsMerge.WarningsExact | utils/fs-overview-merge.ts:9-17 | no warning since the last full refresh is lost and none invented |
| FsMerge.OverlapExact | stores/fs.ts:102-125 | of any two overlapping refreshes, full or partial, with or without an overview before, exactly when the list is the one a sequential run gives |
| FsMerge.OverlapExample | stores/fs.ts:102-125 | two overlapping refreshes that lose a mount |
| FsMerge.GoneMountExample | stores/fs.ts:102-125 | a full refresh overlapped by a partial one: the mount it found gone is shown again |
| LvmAvailability.ClusterLvScstStateForKey | utils/lvm-action-availability.ts:201-216 | none, linked or partial by the count of ready nodes that link the volume |
| LvmAvailability.EnrichLvWithClusterScst | utils/lvm-action-availability.ts:228-262 | the row with the state over the nodes and all device names once, those of the nodes first |
| LvmAvailability.ClusterStateExact | utils/lvm-action-availability.ts:201-216 | linked exactly when some node is ready and all ready ones link it, none exactly when no ready one does |
| LvmAvailability.EnrichedAgrees | utils/lvm-action-availability.ts:201-262 | for all volumes and nodes, exactly when the enriched row shows what the count over the nodes says |
| LvmAvailability.EnrichedAgreesNamed | utils/lvm-action-availability.ts:201-262 | with a ready node and copies never linked without a name, they differ exactly when only the row itself has device names |
| LvmPlanner.ChainExact | utils/lvm-provisioning-chain.ts:230-309 | the chain shows the step of the next action as next, and no other, unless that is SCST with some volume linked |
| LvmPlanner.ChainHidesBinding | utils/lvm-provisioning-chain.ts:220-309 | exactly when the SCST step is shown as done while binding is recommended |
| LvmPlanner.NeverBlocked | utils/lvm-provisioning-chain.ts:110-218 | from a passable state the planner is never blocked, and complete exactly when no step is left |
| LvmPlanner.StepDone | utils/lvm-provisioning-chain.ts:110-218 | performing the recommended action keeps the state passable and leaves one step fewer |
| LvmPlanner.FollowingTerminates | utils/lvm-provisioning-chain.ts:110-218 | every run that follows the planner is complete after exactly the counted number of steps and cannot be longer |
| LvmPlanner.CompletionReachable | utils/lvm-provisioning-chain.ts:110-218 | from every passable state some run that follows the planner is complete in the end |
| LvmPlanner.HiddenBindingExample | utils/lvm-provisioning-chain.ts:220-309 | one linked and one unlinked volume: binding recommended, its step shown as done |
| LvmPlanner.FourFromNothing | utils/lvm-provisioning-chain.ts:110-218 | more than three steps and one per unlinked volume are needed exactly from nothing but a source, and then four |
| HwRaid.MarkBlockDevicesFromHardwareRaid | utils/hw-raid-backend-eligibility.ts:74-91 | each drive marks the first device at its path, later drives overwriting the identifiers |
| HwRaid.RestrictMarked | utils/hw-raid-backend-eligibility.ts:98-114 | marked devices and partitions of marked parents lose MD eligibility |
| HwRaid.RestrictPrep | utils/hw-raid-backend-eligibility.ts:115-123 | disks whose own path is a drive's lose eligibility for partition preparation |
| HwRaid.ApplyHardwareRaidMdRestrictions | utils/hw-raid-backend-eligibility.ts:93-124 | the three loops, on distinct objects |
| HwRaidSafety.MarkedExact | utils/hw-raid-backend-eligibility.ts:74-91 | a device ends up marked exactly when it was or a drive occupies it |
| HwRaidSafety.MdEligibleExact | utils/hw-raid-backend-eligibility.ts:93-114 | with distinct paths, exactly which devices stay eligible for MD |
| HwRaidSafety.PrepEligibleExact | utils/hw-raid-backend-eligibility.ts:115-123 | exactly which devices stay eligible for partition preparation |
| HwRaidSafety.InventoryDiskExact | utils/hw-raid-backend-eligibility.ts:60-123 | a disk listed under its name that a drive occupies stays eligible for neither MD nor partition preparation, and if no earlier row is at its path only that takes the latter away |
| HwRaidSafety.NameOnlyKeepsPrep | utils/hw-raid-backend-eligibility.ts:60-123 | without the form of the paths: a disk that a drive occupies by name alone is marked and stays eligible for preparation |
| HwRaidSafety.NameOnlyExample | utils/hw-raid-backend-eligibility.ts:60-123 | a disk of that kind, as no inventory lists it |
| HwRaidSafety.UnrelatedUnchanged | utils/hw-raid-backend-eligibility.ts:93-124 | a device no drive occupies or names, unmarked and without a marked parent, stays exactly as it was |
| HwRaidSafety.ApplyIdempotent | utils/hw-raid-backend-eligibility.ts:93-124 | applying the restrictions again changes nothing |
| HwRaidSafety.NormalizeStable | utils/hw-raid-backend-eligibility.ts:12-18 | exactly which paths are stable under normalizing again |
| RaidPoll.RaidStore.BeginFetch | stores/raid.ts:113-131 | a silent request is dropped while the flag is set, any other is sent |
| RaidPoll.RaidStore.EndFetch | stores/raid.ts:130-156 | what an answer does to overview, failures, timer, flags and warning |
| RaidPoll.RaidStore.ReconcileProgressPolling | stores/raid.ts:162-178 | the interval is started, kept or stopped |
| RaidPoll.RaidStore.StopProgressPolling | stores/raid.ts:180-184 | no interval is held |
| RaidPoll.RaidStore.TeardownRaidPage | stores/raid.ts:504-516 | polling stopped, pause and failures reset, no SAN, no warning |
| RaidPoll.RunSound | stores/raid.ts:113-194 | in every interleaving at most one interval runs, the one held; only while shown as active, unpaused, below three failures and with a SAN |
| RaidPoll.AnswerReconciles | stores/raid.ts:130-178 | right after a successful reconciling answer the interval runs exactly when unpaused, with a SAN and with progress |
| RaidPoll.FailuresExact | stores/raid.ts:118-184 | in every run the counter holds the silent failures since the last silent success, interval start or stop |
| RaidPoll.ThirdFailureStops | stores/raid.ts:139-148 | while an interval runs, a silent failure stops it exactly when it is the third in a row, and then leaves its message |
| RaidPoll.QuietAfterTeardown | stores/raid.ts:504-516 | after a teardown nothing runs until a page is opened, whatever requests are still answered |
| RaidPoll.OneRequestExact | stores/raid.ts:113-156 | requests never overlap exactly in the runs that send no ordinary request while another one is under way |
| RaidPoll.AnswerOpensGate | stores/raid.ts:149-174 | right after any answer a tick of the interval sends a silent request although others are under way |
| RaidPoll.SilentOverlap | stores/raid.ts:113-178 | a run from opening the page in which the interval has two silent requests under way |
| RaidPoll.OwnRequestsExact | stores/raid.ts:113-137 | requests under way always ask for the SAN that is set, exactly in the runs that change the SAN only while none is under way |
| RaidPoll.ShownExact | stores/raid.ts:130-137 | right after a successful answer the overview shown is that of the SAN that is set exactly when the request was sent for it |
| RaidPoll.ForeignShown | stores/raid.ts:113-178 | a change of SAN during the first request: its answer is shown for the second SAN and starts that one's interval |
| Polling.Coordinator.UnregisterPoller | utils/polling-coordinator.ts:29-33 | the handle of the name is stopped and removed |
| Polling.Coordinator.PauseAllPolling | utils/polling-coordinator.ts:39-44 | every registered handle is stopped |
| Polling.Coordinator.ResumeAllPolling | utils/polling-coordinator.ts:46-52 | the pause ends, and if polling was started the allowed handles are |
| Polling.Coordinator.StartRegisteredPollers | utils/polling-coordinator.ts:73-84 | the handles the route allows are started and the others stopped |
| Polling.Coordinator.StopAllAppPolling | utils/app-polling.ts:47-52 | the core pollers are registered, everything is stopped |
| Polling.Coordinator.StartCoreAppPolling | utils/app-polling.ts:55-63 | nothing without authentication, else register, resume and start |
| Polling.Coordinator.RegisterPagePoller | utils/app-polling.ts:65-76 | the old handle of the name is stopped, the new one registered and started if allowed |
| Polling.RunSound | utils/polling-coordinator.ts:25-102 | in every reachable state nothing runs while paused, and every running handle is the registered one of its name |
| Polling.StartExact | utils/polling-coordinator.ts:73-84 | after starting, exactly the allowed registered handles run |
| Polling.QuietAfterStop | utils/polling-coordinator.ts:46-90 | after everything was stopped, pausing, resuming and unregistering start nothing |
| Polling.RegisterAfterStop | utils/app-polling.ts:65-76 | after that a page's registration starts its poller exactly if unpaused and authenticated |
| Polling.RawRegisterExact | utils/polling-coordinator.ts:25-27 | registering alone is safe exactly when it replaces no other running handle |
| SingleFlight.Coalescer.Join | utils/single-flight.ts:8-18 | the running execution of the key, or a new one, or none when the work throws at once |
| SingleFlight.Coalescer.Finish | utils/single-flight.ts:13-15 | the execution gets its outcome and the entry of its key goes |
| SingleFlight.Coalescer.ClearSingleFlight | utils/single-flight.ts:27-30 | one entry or, with a blank key, all of them go |
| SingleFlight.OneAtATime | utils/single-flight.ts:8-18 | without clearing, at most one execution of a key is unsettled |
| SingleFlight.OutcomeFinal | utils/single-flight.ts:8-18 | an outcome never changes, so all calls of an execution see the same one |
| SingleFlight.SameExecution | utils/single-flight.ts:8-18 | two calls for a key share the execution exactly when it is not settled between them |
| SingleFlight.OthersUntouched | utils/single-flight.ts:13-15 | settling one execution leaves the entries of all other keys |
| SingleFlight.ClearExact | utils/single-flight.ts:27-30 | clearing a key keeps the map right exactly when nothing of it is under way, clearing everything exactly when nothing at all is |
| SingleFlight.ClearBreaksCoalescing | utils/single-flight.ts:13-30 | a run in which one clear leads to two executions of a key later |
| SingleFlight.KeyOrderFree | utils/single-flight.ts:20-25 | the key does not depend on the order of the parameters |

## Left out

- SSH, `readScstConfig`, `writeAndReloadScst` and the serialization of `scst.conf`: a write is an event that succeeds or fails, and a node plan carries the configuration that would be written.
- The parsers of the single probe sections, and the probe commands themselves beyond their `echo` lines.
- The texts of issues, blockers, hints and summaries: the names and values they carry are kept, the words are not.
- `relTargetId`, host names of initiators, RAID levels of backends and other fields that no modelled decision reads.
- `defaultAssignmentsForTwoNodes`, `buildAluaNodeSnapshot`, `collectPreflightNodes`: they only copy fields.
- `evaluateHwBackendEligibility`, the availability of single buttons, badges and page health: one-branch tables.
- How tokens are drawn: a token is given to the store, and a run may issue the same one again.
- Locale tables and floating-point rounding of the one-percent tolerance: a total order and an exact ratio.
- Work whose function calls `singleFlight` for its own key before it returns its promise, and the instant between the removal of an entry and the settling of its promise: settling is one step.
- Server-side rendering: the poller registry is modelled in the browser, where `import.meta.server` is false.
- The guards inside the stores' own `startPolling`: a started poller counts as running even where the store declines to start its timer, so "nothing runs" is proved for more than the program starts.
- FsAgreement.ViewsAgree: for a mount point that is not the empty string, which no mounted filesystem has.
- FsAgreement.AllCreatedNext: likewise for a mount point that is not the empty string.
- FsAgreement.CreateVdiskExact: likewise for a mount point that is not the empty string.
- LvmPlanner.FollowingTerminates: follows the intended effects of the actions; a command that fails leaves the state as it is and is not a step.
- HwRaid.ApplyHardwareRaidMdRestrictions: the list holds no device object twice; the map from paths to devices is read as the rows at the start of its loop, which that loop does not change in what it reads.
- FsMerge.ListsExact: for refreshes that finish before the next one starts; `FsMerge.OverlapExact` says exactly when two overlapping ones give the same.
