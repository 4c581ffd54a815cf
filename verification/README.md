# A verified model of finalizer-doctor

finalizer-doctor looks at Kubernetes objects that are stuck in deletion, decides for
each finalizer whether its owner is provably gone (DEAD), and under `--apply`
deletes the target's orphans and removes the dead finalizers one at a time while
other programs keep writing to the same cluster. This project models that from the
command line down to the single conditional write and proves what the program
promises about it.

How the modules follow the program:

- `Text`, `Lists`: the string and sequence operations the rest is built on.
- `Model`: references, API objects, evidence, verdicts, plans.
- `Terms`: the words of the statements, in terms of the API objects themselves: an
  APIService that reports itself unavailable, a finalizer that belongs to a group, an
  object held in deletion, a reference that names an owner, and so on. No operation uses
  them; each test an operation makes is proved to mean the word it stands for.
- `Mapping`, `Probe`, `Verdicts`, `Diagnosis`: from a finalizer to its owner, to
  evidence, to a verdict; the combined state of a target.
- `AdmissionWebhooks` (Webhook.dfy), `Orphans`, `Plans`: webhook blockers, orphans and
  the ordered remediation.
- `Digest`, `Discover`, `MergePatch`: the confirmation token, the printed command and
  its parser, and the body of the finalizer patch.
- `Cluster`: the API server as a class. Every call begins with an arbitrary step of
  other writers; every object carries a version issued when it was last written; a
  write lands only on the version it was built from; a request or its reply may be
  lost. A terminating object goes when its metadata finalizers are gone, a core
  namespace also waits for those in its spec. The ghost fields `past` (every world so
  far), `log` (this program's writes) and `replies` (what was asked, when it was
  answered, and whether that failed) record the history.
- `Snapshots`, `Diagnoses`, `Scanning`: reading, each read at its own instant.
- `Execution`: the re-verify and mutate loop. Each method leaves a ghost record
  (`Attempt`, `Run`) of what was read and written at which instants.
- `Safety`: theorems about every such record, in every interleaving.
- `Completion`: theorems about runs that nobody disturbs.
- `Witnesses`: histories in which such runs, and the failing ones, happen.
- `Cli`: one whole invocation, its exit codes and its report.
- `Guarantees`: the end-to-end statements.
- `Invocations`: a whole invocation that nobody disturbs.

A theorem about executions is a lemma over `Ran(past, run)`, which the contract of
`Execution.Execute` establishes for every execution; one about invocations is a
lemma over `Lawful(past, ...)`, which the contract of `Cli.Run` establishes together with
the fact that the client's log and replies grew by exactly the recorded writes and reads.

Where the code does not do what its documentation or comments say, the model follows
the code:

- README.md:107-109 says an unreadable liveness source never yields DEAD. The liveness
  sources (internal/verdict/verdict.go:12-16) are workloads, pods and endpoint slices,
  and no evidence ever comes from them: whether they can be read changes no verdict
  (`LivenessSourcesNeverCount`). The veto of the two strategies holds of an evidence list
  only (`ScoreRefinesStrict`). What does hold is that nothing is DEAD without the
  APIService source (`UnreadableServicesVeto`; for an invocation,
  `UnreadableServicesRefuse`). For the CRD source it fails: when its read fails, a
  finalizer that was UNKNOWN can become DEAD, because its group is then attributed to
  an APIService instead. `LostCrdReadTurnsUnknownIntoDead` gives the input,
  `LostCrdReadExact` the exact condition.
- internal/probe/probe.go:24-26 says a CRD-owned finalizer gets no evidence and is
  UNKNOWN. The probe asks by group alone, so it is DEAD when an aggregated APIService
  of the same group is down (`CrdOwnedCanBeDead`; exactly when, `DeadExact`).
- The reads behind one verdict are not one atomic snapshot: in a history whose worlds
  all show a target as not DEAD, a run can read DEAD before every action and carry out
  all of them (`TornReadLooksDead`). Recovery is therefore a condition on three worlds at a time,
  and exactly that one (`RecoveredExact`).
- A resource called `namespaces` in another group has its finalize request sent to the
  core namespace of that name, which can lose finalizers nobody planned to take
  (`ForeignNamespaceLosesUpdate`). The two objects have to carry the same resource
  version: one store never issues a version twice, so this takes an API with a store of
  its own, as an aggregated one may have. `NoLostUpdateExact` says that a target whose
  finalizer is there to take loses exactly that one if and only if it is no such
  resource; `NoLostUpdate` says what a write does in both cases.
- A run may end with exit code 3 although the target is gone: when the last metadata
  finalizer repeats an earlier one (`RepeatedFinalizerFails`), or when a target that is
  no namespace has finalizers in spec as well (`SpecFinalizerFails`). It may end with 0
  although the target is not gone: when a namespace has `kubernetes` in metadata
  (`MetadataKubernetesStays`) or some other finalizer in spec. `UndisturbedExact` says
  exactly when.
- The access review before an apply (internal/cli/run.go:40-54) covers the clears of a
  target that is no namespace and the finalize of a namespace (`WritesReviewed`), but not
  the deletes of orphans, nor the clears in a namespace's metadata.
- When the reply to a write is lost, the cluster has one write more than the run counts
  as completed (`LostReplyUncounted`; `LogIsPlanPrefix` says that this is the only case).

## Model

| member | source | states |
|---|---|---|
| Guarantees.PrintedCommandAccepted | internal/cli/run.go:266-283 | the command a dry run prints for an offered target leads back to the same reference on a collision-free catalogue, and its token authorizes a later diagnosis of that reference exactly when no webhook blocks, the (finalizer, state) multiset is the same and the resource version is unchanged |
| Guarantees.ApplyAfterDryRun | internal/cli/run.go:168-178 | two runs: given the arguments a dry run printed, an apply run that comes to a result has the same target, carries out its plan exactly while no webhook blocks, the verdicts are the same in any order and the object has the same resource version in the two worlds the runs read it from, and exits 0 exactly if all of it was done |
| Guarantees.ExecutedExact | internal/apply/gate.go:28-39 | a diagnosed target is executed exactly when it has verdicts, all DEAD, no webhook blocks, and in a terminal its very name was typed, or else the given token is nonempty and that of the proof |
| Guarantees.ResultRead | internal/snapshot/build.go:94-112 | every diagnosed target has the kind, apiVersion, version, deletion mark, finalizers and owner references, and a namespace the conditions, of the object one of its diagnosis' reads found |
| Cli.AuthorizedExact | internal/apply/gate.go:14-39 | the gates in terms of the options the invocation was given |
| Invocations.UndisturbedInvocation | internal/cli/run.go:127-179 | a whole invocation that nobody disturbs: it exits 0 exactly when the last action still finds the target, the target is gone exactly when every finalizer that holds it sits where its action looks, and the orphans it found are gone or being deleted |
| Invocations.OrphansComplete | internal/orphan/orphan.go:10-25 | a peaceful invocation misses no orphan: every object of a listed, namespaced kind that lives where the target's orphans do and has a reference naming it by apiVersion, kind and name |
| Invocations.OrphansSeparate | internal/cli/run.go:223-233 | the orphans of such a search are there, pairwise different, and none is the target |
| Invocations.SweptApart | internal/discover/resolve.go:106-138 | on a catalogue that lists every kind once, a search in one world finds every candidate once |
| Invocations.ResolvedVersion | internal/cli/run.go:368-393 | a resolved target has the version under which its catalogue lists the kind, so it is never its own orphan under another one |
| Guarantees.EveryWriteAccounted | internal/cli/run.go:285-345 | every write of any invocation, in any interleaving, is the next action of an authorized plan for the target the user named, whose name was typed or whose token was given; an orphan it deletes is not the target, lives where its orphans do and had a reference naming the target by the apiVersion and kind read from the cluster; a finalizer it takes was condemned by an APIService reported unavailable; it has exactly the effect NoLostUpdate states. One after the other: the reviews and the target seen stuck, the diagnosis, the orphan listed, a re-verification that showed every finalizer of the parent DEAD, the write |
| Guarantees.WritesReviewed | internal/cli/run.go:40-54 | the clears of a target that is no namespace come after an allowed review of patch on it, a finalize after one of update on the namespace's finalize subresource |
| Guarantees.EveryWriteTakesOnlyPlanned | internal/apply/apply.go:35-82 | with a core namespace or a target that is no namespace, no write of an invocation takes anything but what its planned action names |
| Guarantees.BoundStateExact | internal/apply/digest.go:15-24 | two verdict lists the token cannot tell apart are both DEAD as a whole or neither is |
| Guarantees.AllCondemned | internal/cli/run.go:189-212 | a DEAD target's plan names its finalizers in order, and each is witnessed by a down APIService that implicates its owner |
| Guarantees.PlanEntitled | internal/plan/plan.go:30-47 | every planned action either deletes an object seen owned by the target and different from it, or takes a condemned finalizer of the target |
| Guarantees.RunAccounted | internal/apply/apply.go:38-55 | log entry n of a run is the request of planned action n, proven afresh and with exactly that action's effect |
| Guarantees.DeletesListed | internal/orphan/orphan.go:16-21 | over a whole invocation, the deletes in the log are orphans in the order found, by a search after the diagnosis and before every write, and none is deleted more often than a list showed it as a candidate |
| Guarantees.ReportExact | internal/apply/apply.go:51-52 | one audit line per completed action, with the version its request was bound to, and a last line for an abort |
| Guarantees.UnreadableServicesRefuse | internal/cli/run.go:288-290 | an invocation whose diagnosis could not read the APIServices writes nothing |
| Safety.NoLostUpdate | internal/apply/apply.go:57-82 | a landed write turns the finalizer list held at that instant into the same list without exactly the planned finalizer and leaves every other object and field alone, whatever others wrote in between; only a finalize whose target is no core namespace goes elsewhere: it replaces the spec finalizers of the core namespace of that name and leaves the target alone |
| Safety.NoLostUpdateExact | internal/cluster/clientgo.go:136-149 | for a finalize whose target is there with the finalizer in spec, and for every other action: exactly the planned finalizer is taken if and only if a finalize target is a core namespace |
| Safety.RunTakesOnlyPlanned | internal/apply/apply.go:35-55 | over a whole run, each landed write belongs to the planned action of its number and has the effect NoLostUpdate states |
| Safety.LandedWasProven | internal/apply/apply.go:38-50 | no write lands without a re-verification inside the same attempt on which every finalizer of the parent was DEAD and an aggregated APIService was down |
| Safety.UnreadableServicesStop | internal/snapshot/build.go:79-87 | a failed APIService read in a re-verification means no write there, and the run ends there |
| Safety.LogIsPlanPrefix | internal/apply/apply.go:38-55 | the writes of a run are the plan's actions in order up to some point, one per completed action, and one more exactly in case a reply was lost |
| Safety.AuditExact | internal/apply/apply.go:51-52 | the audit line of a landed attempt tells the version its request was bound to |
| Safety.OrderKept | internal/plan/plan.go:30-48 | no finalizer is taken before every planned orphan is deleted, and finalize follows every clear |
| Safety.RecoveryStops | internal/apply/apply.go:40-50 | once no three worlds that the reads of one re-verification can come from prove the finalizer DEAD, at most the write in flight lands and the run fails |
| Safety.RecoveredExact | internal/cli/run.go:310-317 | that condition on worlds, for both modes and for the namespace finalizer, holds exactly if no re-verification begun since can read the parent without the finalizer or the finalizer as DEAD |
| Safety.AvailableServicesRecover | internal/cli/run.go:310-317 | derived from it, a condition on one world at a time: no service that implicates the finalizer's owner is down any more and the finalizer stays on the parent |
| Completion.UndisturbedExact | internal/apply/apply.go:35-55 | undisturbed, a run on a DEAD target completes exactly when its last action still finds the target, the target is gone afterwards exactly when every finalizer that holds it sits where its action looks, and the orphans are gone or being deleted whether it completes or not |
| Witnesses.UndisturbedRun | internal/apply/apply.go:38-55 | every DEAD, terminating target with distinct orphans has an undisturbed run of its plan: the hypotheses of UndisturbedExact can be met |
| Witnesses.QuietRun | internal/apply/apply.go:38-55 | every plan has a quiet run from every world |
| Witnesses.RepeatedFinalizerFails | internal/plan/plan.go:36-43 | a finalizer listed twice: the run fails although the target is gone |
| Witnesses.SpecFinalizerFails | internal/plan/plan.go:36-43 | a spec finalizer on a target that is no namespace: the run fails although the target is gone |
| Witnesses.MetadataKubernetesStays | internal/plan/plan.go:36-43 | `kubernetes` in a namespace's metadata: the run succeeds although the target is still there |
| Witnesses.LostReplyUncounted | internal/apply/apply.go:47-51 | a run whose only write lands while its reply is lost: one write, none completed |
| Witnesses.ForeignNamespaceLosesUpdate | internal/cluster/clientgo.go:136-149 | a recorded attempt, after a DEAD re-verification, whose finalize request for a `namespaces` resource of another group lands on the core namespace and takes a finalizer nobody planned to take |
| Witnesses.TornReadLooksDead | internal/snapshot/build.go:61-75 | a history in whose worlds the target is never DEAD, and a run in it whose two re-verifications both read DEAD and whose delete and clear both land |
| Completion.StageVerdict | internal/cli/run.go:310-330 | taking a finalizer away keeps the nonempty remainder DEAD, so re-verification passes exactly while the target exists |
| Completion.StageStep | internal/apply/apply.go:57-70 | one planned action takes the world from one stage of the plan to the next |
| Completion.CalmOutcome | internal/cli/run.go:310-330 | in a quiet history an attempt succeeds exactly when its world shows the target DEAD and holds the object to act on |
| Completion.LeftFacts | internal/plan/plan.go:30-47 | at which point of a plan the target is no longer held |
| Execution.Execute | internal/apply/apply.go:38-55 | runs the plan in order up to the first failure; one audit line per completed action; its writes are all the log gains and its reads all the replies; the record satisfies Ran |
| Execution.Step | internal/apply/apply.go:40-52 | one re-verify and perform pass and its complete record |
| Execution.Reverify | internal/cli/run.go:310-329 | exactly the reads of a fresh diagnosis of the parent, and only on DEAD the action target's own version and finalizers from a later read, and the error cases |
| Execution.PerformAction | internal/apply/apply.go:57-70 | sends the one request the action calls for, pinned to the version read |
| Execution.RemoveFinalizer | internal/apply/apply.go:74-82 | every occurrence of the finalizer goes, everything else stays in order |
| Execution.RunExtends | internal/apply/apply.go:38-55 | adding one recorded attempt keeps a run in progress or finishes it as failed |
| Cluster.Client.Submit | internal/cluster/clientgo.go:122-158 | a request lands only on a matching version, succeeds only if it arrives and its reply does, and changes the world by exactly the requested edit |
| Cluster.Client.PatchFinalizers | internal/cluster/clientgo.go:122-134 | the conditional metadata write |
| Cluster.Client.FinalizeNamespace | internal/cluster/clientgo.go:136-149 | the namespace is read again; a different version is a conflict without a request, the same version is sent along |
| Cluster.Client.DeleteObject | internal/cluster/clientgo.go:151-158 | the delete with a version precondition |
| Cluster.SameVersionSameObject | internal/cluster/clientgo.go:122-158 | an object found with a version that was current earlier has not changed since: why a version precondition rules out lost updates |
| Cluster.OthersMayWrite | internal/cluster/clientgo.go:122-158 | the environment step really allows other writers to create, change or remove any object and to change any evidence |
| Cluster.PerformEvolves | internal/cluster/clientgo.go:122-158 | the program's own writes obey the rules assumed of every writer |
| Cli.Run | internal/cli/run.go:127-179 | exit codes tell the truth: no change without apply or on codes 1 and 2, 2 exactly for a dry run with results, 0 under apply exactly for a fully executed plan or nothing left to diagnose, 3 for a failed gate or run, and a stated reason for every early stop; the report is that of the outcome; the log and the replies of the client grow by exactly what the record holds |
| Cli.Locate | internal/cli/run.go:128-160 | the refusals before any diagnosis, each with its reason, not stuck being an object that is not deleted or has no finalizer in metadata or spec; otherwise the target was resolved, every review asked for and allowed, and the target read and found stuck |
| Cli.ResolveTargets | internal/cli/run.go:347-393 | an explicit target becomes the one reference discovery gives it, `--all` the stuck objects of a complete sweep |
| Cli.Preflight | internal/cli/run.go:40-54 | asks for get on the target and, under apply, for the mutating verb (update on namespaces/finalize for a namespace, patch otherwise), in this order, up to the first that is denied or fails |
| Cli.RunApply | internal/cli/run.go:285-345 | targets are applied in order up to the first failure; the log and the replies gain exactly their writes and reads; the report has one line per completed action and ends with the abort or the refusal |
| Cli.ApplyTarget | internal/cli/run.go:287-343 | nothing is written unless every gate passes, the refusal names a gate that failed, the plan is made for the orphans among the candidates the search shows, the search comes before the run, and the report has one line per completed action |
| Cli.RenderDryRun | internal/cli/run.go:266-283 | the report gives every verdict, in order and first, and prints a command and token for exactly the DEAD and unblocked targets |
| Cli.PlanJustified | internal/cli/run.go:303-308 | the plan built for an authorized target is its nonempty remediation |
| Digest.CanonicalText | internal/apply/digest.go:15-24 | the loop, sort and join compute the canonical text |
| Digest.CanonicalExact | internal/apply/digest.go:15-24 | two canonical texts are equal exactly for the same group, resource, namespace, name, (finalizer, state) multiset and version |
| Digest.SameBoundsExact | internal/apply/digest.go:15-20 | the bound multisets agree exactly when every finalizer is equally often in every state |
| Digest.CanonicalOrderFree | internal/apply/digest.go:16-20 | reordering the verdicts never changes the text, whatever they contain |
| Digest.RefInjective | internal/model/ref.go:21-30 | the rendering of a reference determines all of it but the version |
| Digest.GateExact | internal/apply/gate.go:28-39 | a printed token opens the gate exactly for the proof it was printed for |
| Discover.ParsePrinted | internal/discover/resolve.go:28-51 | parsing the printed words gives the reference back exactly when it is printable |
| Discover.RereadPrinted | internal/cli/run.go:76-82 | the printed command splits back into its target word and namespace |
| Discover.ParseForms | internal/discover/resolve.go:28-51 | what each form of a target word means: with or without a group, `ns` for `namespaces`, and a namespace takes no namespace |
| Discover.ParseRefuses | internal/discover/resolve.go:28-34 | a target is refused exactly when it has no slash, or nothing before or after the first |
| Discover.ResolveExact | internal/cli/run.go:368-405 | a target resolves to the first listed resource that goes by its word as name, singular, kind or short name, in its group if it gives one; otherwise, or when discovery failed, to the word itself in version v1 |
| Discover.FindGVRSound | internal/cli/run.go:368-405 | on a collision-free catalogue resolution finds the resource itself or nothing, and finds it if it is offered |
| Discover.PrintedTargetResolves | internal/cli/run.go:368-405 | printing, parsing and resolving returns the same reference |
| Scanning.Scan | internal/discover/resolve.go:56-85 | after discovery exactly one list request per listable resource, in catalogue order; the result holds each stuck object as often as these lists show it, and nothing else; a failed list shows nothing and stops nothing |
| Scanning.SweptStuckExact | internal/discover/resolve.go:56-92 | the result of a scan holds an object exactly when a list showed it being deleted with a finalizer left in metadata or spec |
| Scanning.RequestsExact | internal/discover/resolve.go:62-75 | a list is asked for exactly of the resources that the catalogue offers to list: with the verb, no subresource, and namespaced where that is wanted |
| Scanning.ScanResource | internal/discover/resolve.go:71-82 | one list request for the resource; the result is the stuck objects that list shows, each once |
| Scanning.NamespaceObjects | internal/discover/resolve.go:106-138 | after discovery exactly one list request in the namespace per namespaced listable resource; the candidates are what these lists show, as often as they show it |
| Scanning.DetectOrphans | internal/cli/run.go:223-233 | the orphans are those among the candidates of that sweep; none for a target outside any namespace or after a failed discovery |
| Scanning.SearchedOrphans | internal/orphan/orphan.go:10-25 | every orphan, at some instant during the search, had a reference with the target's apiVersion, kind and name; it is not the target, and lives in its namespace, or in it if it is one |
| Scanning.PreferredResources | internal/cluster/client.go:51-62 | discovery's partial answer, or a total failure |
| Orphans.Detect | internal/orphan/orphan.go:10-25 | the nested loops collect the orphans in candidate order |
| Orphans.OrphansExact | internal/orphan/orphan.go:10-25 | the orphans are exactly the candidates, other than the target, one of whose references has its apiVersion, its kind and its name |
| Orphans.OrphansOnce | internal/orphan/orphan.go:16-21 | a candidate with several matching references is listed once |
| Plans.Build | internal/plan/plan.go:11-49 | refusals, then the blocker, then the ordered remediation |
| Plans.ClearsThenFinalize | internal/plan/plan.go:34-48 | metadata clears in verdict order, one finalize held back to the end |
| Plans.PlanAgreesWithCombinedState | internal/cli/run.go:243-257 | the combined state is DEAD exactly when there is a verdict and the plan refuses nothing, and then there is something to do |
| Plans.RemediationOrdered | internal/plan/plan.go:30-48 | orphans, then clears, then at most one finalize |
| Plans.RemediationConserves | internal/plan/plan.go:30-48 | each finalizer is cleared as often as it was judged, except a namespace's `kubernetes`; each orphan is deleted as often as it was found |
| Diagnosis.DeadExact | internal/cli/run.go:195-208 | a verdict is DEAD exactly on its proof, in the terms of the API objects: for a namespace's `kubernetes` the deletion conditions and a first unavailable service without a CRD of its group, for any other finalizer strict mode, no core finalizer and a decisive unavailable service of the attributed group |
| Diagnosis.SafeExact | internal/verdict/verdict.go:38-47 | safe to clear is exactly what is DEAD |
| Diagnosis.DeadIsWitnessed | internal/probe/apiservice.go:15-58 | every DEAD verdict has a readable APIService source and an aggregated service whose first Available condition reads False, of a group the finalizer belongs to (for a namespace's `kubernetes`, of any) |
| Diagnosis.NamespaceStateExact | internal/verdict/namespace.go:21-72 | every answer on a namespace's `kubernetes`, by the conditions the namespace reports, the readable sources and the first unavailable service |
| Diagnosis.OneSignal | internal/probe/probe.go:9-31 | the probe never reaches the score threshold |
| Diagnosis.TargetDeadExact | internal/cli/run.go:243-257 | a target is DEAD exactly when it has a finalizer and each is DEAD |
| Diagnosis.CombinedDeadExact | internal/cli/run.go:243-257 | a combined DEAD is a nonempty list of DEAD verdicts |
| Diagnosis.CombinedExact | internal/cli/run.go:243-257 | otherwise the first verdict that is not DEAD decides |
| Diagnosis.ScoreModeClearsOnlyNamespaces | internal/verdict/score.go:12-40 | in score mode only a namespace all of whose finalizers are `kubernetes` can be DEAD |
| Diagnosis.UnreadableServicesVeto | internal/probe/apiservice.go:19-21 | without the APIService read nothing is DEAD in either mode |
| Diagnosis.LivenessSourcesNeverCount | internal/verdict/verdict.go:12-36 | whether workloads, pods and endpoint slices could be read changes no DEAD verdict |
| Diagnosis.LostCrdReadExact | internal/mapping/mapping.go:12-35 | a finalizer DEAD on a failed CRD read is DEAD on the full snapshot exactly when no CRD takes the attribution away, or the one that does is in a down group |
| Diagnosis.LostCrdReadTurnsUnknownIntoDead | internal/snapshot/build.go:64 | an input on which losing the CRD read turns UNKNOWN into DEAD |
| Diagnosis.CrdOwnedCanBeDead | internal/probe/probe.go:24-26 | an input on which a CRD-owned finalizer is DEAD |
| Diagnoses.JudgeTarget | internal/cli/run.go:195-208 | one verdict per finalizer, in order, by the right judge |
| Diagnoses.Diagnose | internal/cli/run.go:189-212 | the results are the verdicts on a snapshot whose reads followed one another |
| Snapshots.Build | internal/snapshot/build.go:47-77 | exactly one request per target and per source, in order, each answered at its own instant; what the answers become is in TargetsRead and SnapExact |
| Snapshots.TargetsRead | internal/snapshot/build.go:94-112 | every target was taken field by field from the object its read found, and no read that found one is missing |
| Snapshots.SnapExact | internal/snapshot/build.go:61-87 | every list is that of the world its read was answered from, or empty for a failed read, and the readable sources are those whose read did not fail |
| Snapshots.SnapReadable | internal/snapshot/build.go:50-87 | the other readable sources, the targets being readable exactly when every one was found |
| Snapshots.ReadTargets | internal/snapshot/build.go:50-60 | missing targets are skipped and make the source unreadable |
| Snapshots.ReadSource | internal/snapshot/build.go:79-87 | a failed read is an unreadable source and an empty answer |
| Snapshots.SnapKept | internal/snapshot/build.go:44-47 | a snapshot does not change as history goes on |
| Mapping.OwnerKindExact | internal/mapping/mapping.go:12-35 | each owner kind, exactly when; a CRD match always wins over an APIService match |
| Mapping.ConcernsExact | internal/mapping/mapping.go:40-60 | a group matches exactly when the part of the finalizer before its first slash is the group or one of its subdomains |
| Mapping.MatchesFormChain | internal/mapping/mapping.go:40-60 | two groups that match one domain are equal or one is a dot-suffix of the other |
| Mapping.MapOrderFree | internal/mapping/mapping.go:12-35 | with one matching group per source the owner does not depend on list order |
| Mapping.FirstListedBeatsClosest | internal/mapping/mapping.go:21-33 | with two matching groups the first listed wins, even over an exact match |
| Probe.ProbeExact | internal/probe/apiservice.go:22-41 | evidence exactly when a service of the group is down and no earlier one of the group settles the probe |
| Probe.ForExact | internal/probe/probe.go:9-31 | the evidence on an owner in full: live for a core owner, none without a group, unreadable without the source, hard proof of weight 40 exactly when an unavailable service decides |
| Probe.UnavailableExact | internal/probe/apiservice.go:44-58 | the test for unavailability means that the first Available condition, ignoring case, reads False; a service without one is not unavailable |
| Text.FoldCharExact | internal/probe/apiservice.go:51-52 | a character folds with a lower-case ASCII letter exactly if it is that letter in either case, the Kelvin sign for k or the long s for s |
| Verdicts.ScoreRefinesStrict | internal/verdict/score.go:12-30 | of any evidence list, with any integer weights: score DEAD is strict DEAD over the threshold, and a live signal or unreadable-liveness evidence vetoes DEAD (whether the probe ever emits such evidence is another matter: LivenessSourcesNeverCount) |
| Verdicts.StrictExact | internal/verdict/strict.go:10-24 | every strict answer, by the classes and sources in the evidence |
| Verdicts.ScoreExact | internal/verdict/score.go:12-30 | every scored answer, with the threshold of sixty |
| Verdicts.StatesOrderFree | internal/verdict/strict.go:10-24 | neither strategy depends on the order of the evidence |
| Verdicts.ScoreOrderFree | internal/verdict/score.go:32-40 | the score does not depend on the order of the evidence |
| Verdicts.SumScore | internal/verdict/score.go:32-40 | the accumulating loop computes the score |
| Verdicts.ScoreOfOne | internal/verdict/score.go:32-40 | one signal counts its weight exactly if it is a dead one |
| Verdicts.NamespaceKubernetes | internal/verdict/namespace.go:21-72 | the guarded chain gives the namespace verdict and its evidence trail |
| Verdicts.TrailExact | internal/verdict/namespace.go:21-72 | the trail of evidence ends where the answer was found |
| Diagnosis.DownGroupExact | internal/verdict/namespace.go:85-97 | finds a group exactly when an aggregated APIService is down, and then that of the first |
| AdmissionWebhooks.Blocks | internal/webhook/webhook.go:20-49 | blocks exactly when some listed webhook is not Ignore, has a rule for updates of the resource in its group, is backed by a service, and that service has slices but no ready endpoint; and returns such a webhook |
| AdmissionWebhooks.ServiceDeadByEndpoints | internal/webhook/webhook.go:92-107 | slices exist and none is ready, and never on an unreadable source |
| AdmissionWebhooks.BlockedOrderFree | internal/webhook/webhook.go:20-81 | the answer depends on which webhooks, rules and slices there are, not on the order of configurations, webhooks, rules, rule entries or slices |
| AdmissionWebhooks.ReadySliceOnlyUnblocks | internal/webhook/webhook.go:92-121 | a new ready slice never turns blocking on, and an unreadable source never blocks |
| MergePatch.PatchFrame | internal/cluster/clientgo.go:171-182 | under section 2 of RFC 7396 the patch sets the finalizer list (never null) and the version, and leaves every other path unchanged |
| MergePatch.DocumentPatched | internal/cluster/clientgo.go:171-182 | the patched document is the original with these two members of its metadata replaced |
| MergePatch.ApplyOther | internal/cluster/clientgo.go:171-182 | the cases of the merge algorithm of section 2 of RFC 7396 that are not about members |

## Left out

- Wording: rendering of evidence, notes, errors and warnings, the JSON report (which prints no command), the names of skipped groups and the audit file.
- Wiring: command flags, kubeconfig, the terminal prompt (a typed name is an input), client-go transport.
- SHA-256: the token is `hash` of the canonical text for any function `hash`; GateExact and PrintedCommandAccepted assume no collision for the two texts at hand.
- Decoding of unstructured objects: API objects are read as typed values; CRDs by their group, Deployments and Pods only by whether they could be read, since nothing in the program looks at their content.
- Resource versions are numbers rendered in decimal; the API server treats them as opaque strings.
- The API versions through which one object is served share a key; other writers may do anything that issues new versions, including garbage collection and cascading deletes.
- Evidence lists may change arbitrarily in every environment step, but not by the program's own writes in the same instant.
- Cluster.Client.Can: the answer is arbitrary and not derived from RBAC objects in the world.
- Invocations.UndisturbedInvocation: assumes a catalogue that lists every kind once and, for namespaces, the core group.
- Completion.UndisturbedExact: assumes distinct orphans that exist and are not the target, and for namespaces the core group; deleting an orphan is assumed not to change the evidence.
- Safety.AvailableServicesRecover: a sufficient condition for callers who look at one world at a time; the exact one is RecoveredExact.
- Guarantees.PrintedCommandAccepted: assumes names free of the delimiters the rendering uses, which Kubernetes names are; ParsePrinted says exactly which references are printable.
- Webhook blocking, owner references and the deletion mark are not checked again before each action, in the program or here.
- The trees of a webhook's rule other than operations, groups and resources (scope, versions, selectors) are ignored by the program too.
- Case folding is exact when one side is ASCII, as it always is for `Available` and resource kinds.
- The default case of an unknown action kind: plans contain only the three kinds.
