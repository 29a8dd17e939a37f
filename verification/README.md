# Verified model of the cluster control plane

A control plane for Kubernetes clusters: it cordons and drains nodes, edits their taints, creates and
relabels namespaces under provenance stamps, decides requests by a two-layer access policy, and
comes with in-memory stand-ins for the cluster, for the command service and for the deploy service.
This project models the parts that hold state, loop, or make a promise about a whole run, and proves
what they promise.

`dafny verify dfyconfig.toml` checks everything.

## How the model is built

- **Objects the program updates in place are classes** (`KubeApi.CoreV1Api` over
  `KubeApi.ClusterStore`, `UsersFileCache.JsonUsersFile`, `TokenManagement.TokenManager`,
  `CommandTrace.CommandService`, `Pipelines.DeployService`, `Namespaces.NamespaceApi`). Loops are
  loops. Each method is tied to a function of the old state, and the theorems are about that function.
- **The API server** answers every request with the in-memory server's answer, after *weather*: an
  arbitrary change of the cluster before the request, and an arbitrary failure of it. A client logs
  every exchange. An operation's contract says which logs and answers it can produce (`DrainTrace`,
  `BatchTrace`, `TaintTrace`); the safety theorems hold of all of them. In calm weather (no change, no
  failure: the dry-run client) the same logs determine the outcome exactly.
- **Threads and tasks** are state machines whose steps are the points where the program can be
  interrupted: `UsersFileCache.Next` and `TokenManagement.Next`. Theorems hold of every list of steps.
- **Clocks, random ids, regular expressions and globs** are parameters. Timestamps are opaque.

## What is proved

1. *Users file.* A list of edits keeps every load of every schedule linearizable (each load answers as
   an uncached read would at one instant of its own life) if and only if a stamp that is seen again
   still tells what was parsed since it was first seen. Fresh stamps are enough.
2. *Drain.* Only unprotected pods of the one snapshot are asked to go; one protected pod and none is;
   no failure is swallowed, and one refused by a disruption budget stops the drain with a 409; a failed
   removal leaves exactly a prefix removed; on a calm cluster the pod list ends as the original
   minus the targets, in order, and a second drain does nothing. The options a refusal asks for are the least.
3. *Batch.* Under any failures, one result per name, and a node is cordoned only if both layers allow
   `node.cordon` of it and uncordoned only if both allow `node.uncordon`; on a calm cluster, equal to a
   fold of single requests.
4. *Access policy.* The early-return loops equal an order-free meaning; what each added rule changes.
5. *Namespaces.* All five stamps tell the truth after any run of requests, failures, lost answers and
   foreign edits. Following continue tokens loses nothing, and a printed label selector is read as its
   meaning.
6. *Command log.* A viewer that follows the byte cursor sees every line exactly once, numbered 1 to n,
   readable back and free of markup.
7. *Pipelines.* Store invariants; when at most one pipeline is active per ref and variables.
8. *Tokens.* What `get_token` returns was fetched in the call or has more than 30 s left, and it fetches
   only when the held one has no more than that; under the lock alone the newest token is the one held.
9. *Taints, merge patch, domain names.* Exact list of a taint update and when repeating it changes
   nothing; patch algebra; the domain test is a test on labels.

Some claims that look natural are false of the program. For each there is a lemma with an input
that breaks it and one that says exactly when it holds:

| claim | fails by | holds exactly |
|---|---|---|
| every load is linearizable | `UsersFileCache.ReusedStampServesStale`, `UsersFileCache.RolledBackFileIsMissed` | `UsersFileCache.LinearizableIff` |
| the key patterns accept exactly DNS names and label names | `LabelRules.NewlineIsAccepted` | `LabelRules.SubdomainCheckErrsIff`, `LabelRules.LabelNameCheckErrsIff`, `LabelRules.KeyCheckErrsIff` |
| no key of a reserved domain is accepted | `LabelRules.NewlineIsAccepted` | `LabelRules.ReservationEscapedIff` |
| every accepted rule can fire | `AccessPolicy.AcceptedRuleThatNeverFires` | `AccessPolicy.CanFireIff` |
| adding a rule never widens | `AccessPolicy.SecondAllowWidens` | `AccessPolicy.AddedRuleWidensIff` |
| a taint request is idempotent | `Taints.SharedIdReorders` | `Taints.RepeatIsFixpointIff` |
| at most one active pipeline per ref and variables | `Pipelines.FourCallsMakeTwoActive` | `Pipelines.RetryKeepsOneActiveIff`, over runs `Pipelines.OneActiveThroughoutIff` |
| merge patches commute | `MergePatch.SetAndDeleteDoNotCommute` | `MergePatch.PatchesCommuteIffTheyAgree` |
| the newest token is the one held | `TokenManagement.TwoRefreshesOverwrite` | `TokenManagement.SettleIff`, and before a refresh `TokenManagement.RefreshIsSafeIff` |
| the initial token is never handed out | `TokenManagement.FirstCallHandsOut` | `TokenManagement.InitialTokenHandedOutIff` |

## Model

| member | source | states |
|---|---|---|
| UsersFileCache.JsonUsersFile.Load | app/repositories/json_users_file.py:62-73 | a load answers from the cache when the stamp it saw is the cached one and parses otherwise; a missing file or failed parse leaves the cache alone; alone and with an honest cache it answers as a plain read |
| UsersFileCache.JsonUsersFile.Parse | app/repositories/json_users_file.py:75-86 | parsing succeeds exactly when a plain read of the file would, with the same document |
| UsersFileCache.LoadsAreLinearizable | app/repositories/json_users_file.py:62-73 | over every interleaving of loads and edits whose history keeps its stamps telling, each finished load answers as an uncached read at an instant between its stat and its return |
| UsersFileCache.SteadyFileIsServed | app/repositories/json_users_file.py:62-86 | a load during which the file keeps reading as one thing answers that thing; an invalid file is never hidden by the cached document |
| UsersFileCache.HitIsLinearized | app/repositories/json_users_file.py:68-73 | a cache hit is current: either the cached parse came after the stat, or the stamp still tells what that parse said |
| UsersFileCache.InvStep | app/repositories/json_users_file.py:62-73 | each stat, acquisition, check, parse, store and edit keeps the invariant that the cached document was read no earlier than its stamp |
| UsersFileCache.OneParserAtATime | app/repositories/json_users_file.py:68 | the lock admits one thread to the check, the parse and the store |
| UsersFileCache.LockIsGivenBack | app/repositories/json_users_file.py:68-73 | over every interleaving the lock is taken if and only if some thread is in the section: a hit, a store and a failed parse all give it back |
| UsersFileCache.AloneIsLoad | app/repositories/json_users_file.py:62-73 | one thread running alone through the machine does exactly what `JsonUsersFile.Load` does |
| UsersFileCache.LinearizableIff | app/repositories/json_users_file.py:62-73 | for every list of edits: all loads of all its schedules are linearizable if and only if no stamp seen again stands for another document than was parsed since it was first seen |
| UsersFileCache.DeceptionIsFound | app/repositories/json_users_file.py:62-73 | any list of edits that breaks this has a schedule with a load that is not linearizable |
| UsersFileCache.TellingStampsSuffice | app/repositories/json_users_file.py:62-73 | any schedule of edits that keep it has none |
| UsersFileCache.FreshStampsTell | app/repositories/json_users_file.py:62-73 | stamps that never come back keep it |
| UsersFileCache.AwayAndBackIsServed | app/repositories/json_users_file.py:62-73 | a file that goes away and comes back untouched is served correctly in every schedule |
| UsersFileCache.RolledBackFileIsMissed | app/repositories/json_users_file.py:62-73 | a file rolled back with its old stamp is not, though no stamp ever names two documents |
| UsersFileCache.ReusedStampServesStale | app/repositories/json_users_file.py:62-73 | when an edit brings the old stamp back, a load answers with a document the file held at no instant of that load |
| KubeApi.ClusterStore.Put | app/services/dry_run_kube_client.py:292-313 | writing one cluster's state leaves every other cluster as it was |
| KubeApi.CoreV1Api.ListNode | app/services/dry_run_kube_client.py:351-358 | lists the nodes, logs the exchange, touches no other cluster |
| KubeApi.CoreV1Api.ReadNodeNamed | app/services/dry_run_kube_client.py:360-367 | the node, or 404 |
| KubeApi.CoreV1Api.PatchNodeNamed | app/services/dry_run_kube_client.py:369-412 | changes exactly the patched part of exactly the named node, or 404; metadata is merged key by key |
| KubeApi.CoreV1Api.ListPodForAllNamespaces | app/services/dry_run_kube_client.py:418-439 | narrows the pods clause by clause; clauses it does not know are ignored |
| KubeApi.CoreV1Api.CreateNamespacedPodEviction | app/services/dry_run_kube_client.py:462-480 | takes the pod out of the list or answers 404 |
| KubeApi.CoreV1Api.DeleteNamespacedPod | app/services/dry_run_kube_client.py:450-460 | takes the pod out of the list or answers 404 |
| KubeApi.CoreV1Api.RemovePod | app/services/dry_run_kube_client.py:587-591 | removes the first pod of that namespace and name and keeps the order of the rest |
| Kube.SelectorPicksNode | app/services/dry_run_kube_client.py:418-439 | on every pod list it picks exactly the pods of that node, in order, if and only if the name has no comma and no outer white space |
| Kube.NodeSelectorIsFilter | app/services/dry_run_kube_client.py:418-439 | whatever the node name, the selector filters the pods, keeping their order |
| Kube.PicksTheNodeIff | app/services/dry_run_kube_client.py:418-439 | the parser of the listing picks exactly the pods of a name if and only if the name has no comma and no outer white space, and otherwise none of them; a limit of the parser that no valid node name meets |
| Kube.CommaInTheName | app/services/dry_run_kube_client.py:418-439 | the parser takes the text `a,b` apart |
| Kube.PatchChangesItsPart | app/services/dry_run_kube_client.py:369-412 | a patch changes the part it names and nothing else of the cluster |
| Kube.MissingIsNotFound | app/services/dry_run_kube_client.py:360-480 | a read, patch, eviction or deletion of what is not there answers 404 and changes nothing |
| NodeErrors.KubeError | app/core/exceptions.py:400-421 | a status of 0 counts as none, a status from 400 up is answered as it is, and anything else as 502 |
| NodeErrors.ClusterLevelFaults | app/services/node_service.py:293-310 | exactly these failures of a request about one node count against the cluster: no connection, no response, 401, 403 |
| NodeErrors.FaultsAreAnswered | app/services/kube_errors.py:37-67 | which error each fault of a request becomes: 404 the missing thing, no connection a 503 of the cluster, no response a 502, any other status from 400 up itself |
| NodeErrors.NodeStatus | app/services/node_service.py:858-887 | Ready exactly when the first Ready condition says True, Unknown exactly when it says Unknown or there is none, NotReady otherwise |
| NodeService.PatchUnschedulable | app/services/node_service.py:663-677 | one patch of the flag; a 404 is a missing node, anything else an API error |
| NodeService.Cordon | app/services/node_service.py:210-221 | one patch, whatever the readiness |
| NodeService.Uncordon | app/services/node_service.py:223-252 | reads first, and patches only a node it found Ready |
| NodeService.UncordonAsksFirst | app/services/node_service.py:223-252 | an uncordon sends a read, and a patch that makes the node schedulable exactly when the first Ready condition read says True; it goes through exactly when that patch does |
| NodeService.CalmUncordon | app/services/node_service.py:223-252 | on a calm cluster an uncordon makes a Ready node schedulable and otherwise changes nothing and says why |
| NodeService.CalmCordon | app/services/node_service.py:210-221 | on a calm cluster a cordon marks a known node and reports an unknown one |
| Drain.Protections | app/services/node_service.py:470-489 | the reasons a pod is protected, unmanaged before emptyDir |
| Drain.Classify | app/services/node_service.py:444-496 | the classification loop yields exactly the targets and the blocked pods with their reasons, in snapshot order |
| Drain.ClassificationPartitions | app/services/node_service.py:444-496 | skipped, blocked and targeted pods are the snapshot as a multiset, each pod in exactly one of the three |
| Drain.ReasonsAreTheProtections | app/services/node_service.py:470-489 | a reason is reported exactly when the pod has that protection and its option was not given |
| Drain.BlockedMembers | app/services/node_service.py:470-496 | a report is in the refusal exactly when it describes a blocked pod of the snapshot |
| Drain.RequiredMeans | app/core/exceptions.py:469-482 | an option is required exactly when some unskipped pod of the snapshot needs it |
| Drain.RequiredOptionsAreLeast | app/core/exceptions.py:469-482 | granting a set of options unblocks the same snapshot if and only if it includes every required one |
| DrainService.EvictOrDelete | app/services/node_service.py:764-807 | one removal request with the grace period; a pod already gone is a success, a disruption budget's 429 a 409 |
| DrainService.Poll | app/services/node_service.py:829-841 | one listing, and exactly the targets it still shows |
| DrainService.PollAndPause | app/services/node_service.py:828-855 | done when the listing fails, shows no target, or finds the deadline passed; otherwise one sleep of exactly two seconds |
| DrainService.PollUntil | app/services/node_service.py:828-855 | the loop ends with the first such listing, and has slept once for each one before it |
| DrainService.WaitForPodsGone | app/services/node_service.py:809-855 | polls until no target is listed or the budget is spent, sleeping two seconds between polls, and answers with the targets of the last listing; it gives up only after the whole budget |
| DrainService.WaitIsBounded | app/services/node_service.py:825-855 | with budget T there are at most ceil(T/2)+1 listings, and what is left is among the targets |
| DrainService.RemoveAll | app/services/node_service.py:503-511 | the removals go one at a time in snapshot order and stop at the first failure |
| DrainService.RemoveAndWait | app/services/node_service.py:503-547 | removals, then the wait, then the answer about them |
| DrainService.CordonAndList | app/services/node_service.py:432-443 | one cordon and one listing, each with its error |
| DrainService.DrainPods | app/services/node_service.py:444-547 | any blocked pod refuses the whole without a request; otherwise removals and a wait |
| DrainService.DrainNode | app/services/node_service.py:404-547 | cordon, one listing, then a refusal of the whole or removals and a wait; nothing else is ever sent |
| DrainTheorems.DrainIsSafe | app/services/node_service.py:432-511 | whatever the cluster does in between, every removal names an unprotected pod of the snapshot; one blocked pod and no removal is sent; nothing uncordons the node |
| DrainTheorems.RequestsOfADrain | app/services/node_service.py:432-511 | every request of a drain by position: the flag, the listing of the node, one removal per target in snapshot order with the grace period asked for, by eviction unless turned off, then listings |
| DrainTheorems.DrainRemovesExactly | app/services/node_service.py:444-511 | only pods that are not mirror, finished, of a DaemonSet, or protected without the option are asked to go; after a drain that went through each of them was, and its removal accepted or the pod already gone |
| DrainTheorems.NoFailureIsSwallowed | app/services/node_service.py:432-547 | the first failing request ends the drain with its error, except a removal of a pod already gone |
| DrainTheorems.BudgetStopsTheDrain | app/services/node_service.py:801-806 | an eviction answered with 429 is the last request, and the drain fails with a 409 |
| DrainTheorems.RefusalReportsTheProtected | app/services/node_service.py:470-502 | a refusal reports exactly the protected pods of the snapshot, each with exactly the protections whose option was not given |
| DrainTheorems.RefusalAsksForWhatIsMissing | app/core/exceptions.py:469-482 | it requires force, or deletion of emptyDir data, exactly when some pod that is not left alone needs it |
| DrainTheorems.FailedRemovalLeavesAPrefix | app/services/node_service.py:503-511 | an error at the k-th removal means exactly the first k-1 targets were accepted or answered 404, the k-th failed with another status, and no later one was asked to go |
| DrainTheorems.DrainAnswer | app/services/node_service.py:519-547 | the answer names the node, lists the targets by namespace and name in snapshot order, and says whether deletion was forced by a grace period of 0; the node is reported emptied if and only if nothing is still terminating |
| DrainTheorems.TerminatingInOrder | app/services/node_service.py:531-534 | still terminating are the targets the last listing shows, sorted by namespace and name |
| DrainTheorems.StillTerminatingIsListed | app/services/node_service.py:809-855 | still terminating is exactly what was asked to go and the last listing shows |
| DrainTheorems.WithoutIsFilter | app/services/dry_run_kube_client.py:587-591 | with distinct names, taking a pod out of the list is filtering it out |
| DrainTheorems.CalmRemovals | app/services/node_service.py:503-511 | on a calm cluster, after k removals exactly the first k targets are gone and the rest keeps its order |
| DrainTheorems.CalmDrain | app/services/node_service.py:404-547 | on a calm cluster a drain of a known node, whatever its name, leaves exactly the original pod list minus the unskipped pods it was shown, in order, the node cordoned and all else unchanged, with at most one listing in the wait; or refuses and only cordons |
| DrainTheorems.DrainedMeans | app/services/node_service.py:404-547 | in plain terms: refused exactly when a pod of the node is protected, and otherwise the pods that stay are, in order, those not on the node or not removable |
| DrainTheorems.DrainDryRun | app/services/node_service.py:404-547 | draining the in-memory cluster itself: that exact effect on the store, zero sleeps, no other cluster touched, and for every node name that is a DNS subdomain the pods it is shown are exactly those of the node |
| DrainTheorems.NodeNamesAreSelectable | app/services/node_service.py:440-443 | every DNS subdomain, which is what a node can be called, passes through the selector whole: a drain is shown exactly the pods of its node |
| DrainTheorems.NothingLeftToDrain | app/services/node_service.py:444-496 | what a successful drain leaves on the node is neither target nor blocked for the same options |
| DrainTheorems.DrainIsIdempotent | app/services/node_service.py:404-547 | a second drain with the same options sends two requests, removes nothing and changes nothing |
| Seqs.Distinct | app/services/node_service.py:79-82 | each name once, none invented, none lost |
| Seqs.DistinctKeepsFirstSeenOrder | app/services/node_service.py:79-82 | names keep the order in which they were first seen |
| Batch.BatchOf | app/services/node_service.py:94-108 | total is the number of results, succeeded counts the successes and failed the failures |
| Batch.BatchNode | app/services/node_service.py:358-400 | a denied or known not Ready node costs no request; any other one patch, whose failure propagates if it is the cluster's |
| Batch.BatchLoop | app/services/node_service.py:357-400 | either every name has its result or the loop stopped at the first failure of the cluster and sent nothing after it |
| Batch.BatchSetUnschedulable | app/services/node_service.py:312-400 | one readiness listing when an uncordon needs it, then the loop over the distinct names |
| BatchTheorems.DeniedNodes | app/services/policy_service.py:59-79 | the refused names with their decisions, and no other |
| BatchTheorems.RunBatch | app/services/node_batch_service.py:38-61 | a batch refused as a whole sends nothing; any other goes to the node service with its denials, a cordon judged as a cordon and an uncordon as an uncordon |
| BatchTheorems.DenialsMean | app/services/node_batch_service.py:26-50 | a name is denied a cordon if and only if a layer does not allow `node.cordon` of that cluster and node, and an uncordon if and only if one does not allow `node.uncordon` |
| BatchTheorems.PatchedNodesPassThePolicy | app/services/node_batch_service.py:26-61 | whatever happens in between, a node is marked unschedulable only if both layers allow `node.cordon` of it, and schedulable only if both allow `node.uncordon` |
| BatchTheorems.ResultsTellTheDenials | app/services/node_batch_service.py:47-61 | each name gets its result in its place, and it is a denial exactly when the policy refuses that action |
| BatchTheorems.UncordonedNodesWereReady | app/services/node_service.py:345-371 | a batch uncordon patches only nodes that the listing before it showed Ready, or did not show |
| BatchTheorems.OneResultPerName | app/services/node_service.py:357-400 | a per-node failure never stops the loop: one result per distinct name, in order |
| BatchTheorems.OnePatchPerNeed | app/services/node_service.py:357-400 | exactly the names that are neither denied nor known not Ready are patched, once each, in order |
| BatchTheorems.ClusterFailureStopsTheBatch | app/services/node_service.py:372-400 | a failure of the cluster at position k propagates, and exactly the patches up to k were sent |
| BatchTheorems.ClusterFailureGoesToTheCaller | app/services/node_service.py:372-400 | a patch that fails for want of a connection, a response or credentials ends the batch with that error; any other failure is the result of its node |
| BatchTheorems.OneListingAtMost | app/services/node_service.py:345-356 | besides patches at most one listing, first and for an uncordon of some allowed name; its failure ends the batch |
| BatchTheorems.DeniedNodesAreNeverPatched | app/services/node_batch_service.py:47-61 | no patch of a batch names a node the policy denies, whatever fails |
| BatchTheorems.FoldKeepsReadiness | app/services/node_service.py:345-356 | cordons and uncordons never change the readiness the one snapshot was taken from |
| BatchTheorems.CalmLoopIsFold | app/services/node_service.py:357-400 | on a calm cluster the loop over a true snapshot ends where one request per name would |
| BatchTheorems.BatchRefinesSingles | app/services/node_batch_service.py:38-61 | on a calm cluster, for any names with repetitions and any policy, results and final cluster equal a left fold of policy check then cordon or uncordon over the distinct names |
| BatchTheorems.CalmBatchMarks | app/services/node_batch_service.py:38-61 | on a calm cluster exactly the named nodes that pass the policy, and for an uncordon were Ready, end with the flag as asked; nothing else changes |
| BatchTheorems.RunBatchDryRun | app/services/node_batch_service.py:38-61 | a batch on the in-memory cluster itself ends in that state with those results, and no other cluster is touched |
| AccessPolicy.ResolveTargets | app/domain/access_policy.py:113-122 | succeeds exactly when every action pattern hits some action, with all the hits, and reports the first that hits none |
| AccessPolicy.CompilePatterns | app/domain/access_policy.py:130-141 | succeeds exactly when every expression compiles, and reports the key of the first that does not |
| AccessPolicy.Resolve | app/domain/access_policy.py:113-143 | a rule is accepted exactly when every action pattern hits, every key belongs to some targeted action and every expression compiles; the error is the first wrong pattern, then key, then expression |
| AccessPolicy.AcceptedIff | app/domain/access_policy.py:113-143 | accepted means: every action pattern matches the name of some action, every key belongs to some action so targeted, and every expression compiles |
| AccessPolicy.PlainNamesTargetTheirAction | app/domain/access_policy.py:37-53 | each of the nine names targets its own action, and no plain name two |
| AccessPolicy.KeysOfAnAction | app/domain/access_policy.py:55-83 | a rule on one action may match on the cluster and on the node or the namespace the action is on, and on nothing else |
| AccessPolicy.PatternMapMeans | app/domain/access_policy.py:130-143 | each key of a rule bounds the parameter it names, the last entry counting |
| AccessPolicy.PatternMapHoldsNoMore | app/domain/access_policy.py:130-143 | and no other parameter |
| AccessPolicy.RuleMatches | app/domain/access_policy.py:148-153 | a rule matches exactly when every key it names is present and matches in full |
| AccessPolicy.FirstMatching | app/domain/access_policy.py:181-206 | finds the first applicable rule of an effect that matches |
| AccessPolicy.EvaluateLayer | app/domain/access_policy.py:181-206 | allowed if and only if no deny matches and, where the layer has allow rules for the action, one of them does |
| AccessPolicy.Evaluate | app/domain/access_policy.py:209-228 | allowed if and only if both layers allow |
| AccessPolicy.LayerDecisionMeans | app/domain/access_policy.py:181-206 | the layer's early-return evaluation equals its order-free meaning |
| AccessPolicy.UserRulesOnlyTighten | app/domain/access_policy.py:209-228 | a request passes both layers exactly when it passes each alone |
| AccessPolicy.VerdictIgnoresRuleOrder | app/domain/access_policy.py:181-228 | permuting each layer never changes the verdict |
| AccessPolicy.DeniesAreAntitone | app/domain/access_policy.py:181-206 | added deny rules take away exactly the requests one of them matches |
| AccessPolicy.AddedRuleWidensIff | app/domain/access_policy.py:198-206 | an added rule lets a refused request in if and only if it is a matching allow, no deny matches and the layer already had an allow list that missed the request |
| AccessPolicy.SecondAllowWidens | app/domain/access_policy.py:198-199 | a second allow rule does widen a layer that has one |
| AccessPolicy.ReportedRuleIsTheFirstDeny | app/domain/access_policy.py:181-228 | with unique ids a rule's id is reported if and only if it is the first matching deny of the first refusing layer |
| AccessPolicy.RefusalNamesItsLayer | app/domain/access_policy.py:209-228 | a refusal names the first layer that does not allow, and a rule exactly when that layer denied |
| AccessPolicy.CanMatchIff | app/domain/access_policy.py:148-153 | a rule can match a request of an action if and only if the action carries all its keys and each expression matches something |
| AccessPolicy.CanFireIff | app/domain/access_policy.py:113-153 | some request makes a rule fire if and only if one of the actions it targets carries all its keys and each expression matches something |
| AccessPolicy.AcceptedRuleThatNeverFires | app/domain/access_policy.py:124-129 | a rule on all actions naming both a node and a namespace is accepted and can never match |
| AccessPolicy.NoDupesIff | app/domain/users_document.py:99-117 | the duplicate check finds none if and only if no value occurs twice |
| AccessPolicy.DocumentAcceptedIff | app/domain/users_document.py:71-117 | the checks pass if and only if no account occurs twice and no rule id does in the whole document |
| AccessPolicy.AcceptedDocumentHasUniqueIds | app/domain/users_document.py:71-117 | in an accepted document the rules that apply to one account have unique ids |
| Taints.UpdatedTaints | app/services/node_service.py:635-654 | the loops compute existing taints by id, less the removed, with the sets put in |
| Taints.ReplaceTaints | app/services/node_service.py:635-659 | one patch of the whole list and one read back, each with its error |
| Taints.TaintNode | app/services/node_service.py:613-659 | reads, patches the whole recomputed list only when something was asked for, and answers with what it reads back |
| Taints.TaintRequests | app/services/node_service.py:613-659 | read, patch of the recomputed list only if something was asked for, read; the first failure ends it, and the answer is what was last read |
| Taints.CalmTaint | app/services/node_service.py:613-659 | on a calm cluster the node ends with the recomputed list, and that is the answer |
| Taints.UpdatedMeans | app/services/node_service.py:635-654 | the new list has unique ids (key and effect): survivors in place, then arrivals in set order; each id has its last set value, or is gone if only removed, or keeps its value |
| Taints.OneTaintPerKeyAndEffect | app/services/node_service.py:635-654 | no two entries of the new list have the same key and effect |
| Taints.SetTaintIsThere | app/services/node_service.py:635-654 | the last taint set for a key and effect is in it |
| Taints.RemovedTaintIsGone | app/services/node_service.py:635-654 | a key and effect removed and not set has no entry |
| Taints.UnnamedTaintStays | app/services/node_service.py:635-654 | the last existing taint of a key and effect nobody named is in it as it was |
| Taints.NoTaintFromNowhere | app/services/node_service.py:635-654 | and nothing is in it but set taints and existing ones that were not removed |
| Taints.RepeatedIds | app/services/node_service.py:635-654 | repeating a request moves the ids it both removes and sets behind the other arrivals |
| Taints.RepeatIsFixpointIff | app/services/node_service.py:635-654 | repeating a request changes nothing if and only if no arriving removed id stands before an arriving id that is not removed |
| Taints.DisjointRequestIsIdempotent | app/services/node_service.py:635-654 | a request that sets and removes different ids is a list fixpoint when repeated |
| Taints.SharedIdReorders | app/services/node_service.py:635-654 | removing and setting one id in front of a new one reorders the list when repeated |
| MergePatch.Merge | app/services/dry_run_kube_client.py:624-632 | the merge loop computes the patch's meaning whatever the order of its keys |
| MergePatch.MergeField | app/services/dry_run_kube_client.py:399-412 | the inline loop of the node patch computes the same map |
| MergePatch.ApplyAt | app/services/dry_run_kube_client.py:624-632 | a null deletes, a value sets, any other key is untouched |
| MergePatch.ApplyCompose | app/services/dry_run_kube_client.py:624-632 | p then q is p overridden by q |
| MergePatch.ApplyIdempotent | app/services/dry_run_kube_client.py:624-632 | applying a patch again changes nothing |
| MergePatch.DisjointPatchesCommute | app/services/dry_run_kube_client.py:624-632 | patches on different keys commute |
| MergePatch.PatchesCommuteIffTheyAgree | app/services/dry_run_kube_client.py:624-632 | two patches commute on every map if and only if they agree on shared keys |
| MergePatch.SetAndDeleteDoNotCommute | app/services/dry_run_kube_client.py:624-632 | setting a key and deleting it, in the two orders, give different maps |
| MergePatch.KeyMergePatchOutcome | app/services/kube_patch.py:11-15 | a removed key ends absent even if also set, a set key has its value, others are untouched |
| LabelRules.DomainTestIsLabelSuffix | app/domain/label_rules.py:25-28 | for all strings, being a domain or below it is having its dot-separated labels as a suffix |
| LabelRules.DomainsNest | app/domain/label_rules.py:25-33 | a subdomain of a subdomain is a subdomain |
| LabelRules.ReservedDomainsAreTwo | app/domain/label_rules.py:18-33 | reserved are exactly the domains whose last labels are kubernetes.io or k8s.io |
| LabelRules.UnderDomainMeans | app/domain/label_rules.py:36-43 | a key is under a domain by what is before its last slash, or as a whole without one |
| LabelRules.ShapesByCharacter | app/domain/label_rules.py:14-60 | DNS labels and names character by character, first and last alphanumeric |
| LabelRules.Lengths | app/domain/label_rules.py:14-60 | nothing over 253 characters is a subdomain and nothing over 63 a name |
| LabelRules.SubdomainCheckErrsIff | app/domain/label_rules.py:14-22 | for all texts: the check accepts a text that is no DNS subdomain if and only if the text is one followed by one newline, within the length |
| LabelRules.LabelNameCheckErrsIff | app/domain/label_rules.py:48-60 | the same for label names and values |
| LabelRules.ChecksAreExactWithoutNewline | app/domain/label_rules.py:14-60 | without a newline at the end both checks are exact |
| LabelRules.KeyCheckErrsIff | app/domain/label_rules.py:52-83 | the key check lets through an improper key exactly when a newline ends its prefix or its name, and is exact for all other keys |
| LabelRules.ReservationEscapedIff | app/domain/label_rules.py:63-67 | the reserved-domain rule is got past by exactly these keys: a reserved domain, a newline, a slash and a name |
| LabelRules.NewlineIsAccepted | app/domain/label_rules.py:14-22 | a text that is no DNS name passes the subdomain check, and a key of k8s.io passes the whole key check, by one newline each |
| Namespaces.NamespaceApi.Create | app/services/dry_run_kube_client.py:546-567 | a taken name is a 409; a new namespace carries its name label and is Active |
| Namespaces.NamespaceApi.Read | app/services/dry_run_kube_client.py:537-544 | the namespace, or 404 |
| Namespaces.NamespaceApi.Patch | app/services/dry_run_kube_client.py:569-583 | labels and annotations are merged, or 404 |
| Namespaces.ConflictOrNotFound | app/services/dry_run_kube_client.py:537-583 | a taken name answers 409 and a missing one 404, and nothing changes |
| Namespaces.NamespaceService.CreateNamespace | app/services/namespace_service.py:70-126 | refuses keys under the prefix, creates with stamps, and tells an existing namespace from one being deleted by its phase |
| Namespaces.NamespaceService.UpdateLabels | app/services/namespace_service.py:128-173 | refuses reserved names and keys under the prefix, then one patch with the stamps |
| Namespaces.NamespaceService.UpdateAnnotations | app/services/namespace_service.py:175-223 | the same for annotations |
| Provenance.StampKeysAreRefused | app/services/namespace_service.py:290-317 | under a valid prefix every stamp key is refused to callers, and no stamp key is reserved for Kubernetes |
| Provenance.StampsNeverClash | app/services/namespace_service.py:194-215 | merging caller keys and stamps in either order gives the same patch |
| Provenance.SuccessIff | app/services/namespace_service.py:70-223 | a request succeeds if and only if it takes effect and its answer is not lost |
| Provenance.NoEffectNoChange | app/services/namespace_service.py:70-223 | a request that does not take effect changes no namespace |
| Provenance.FailedRequestChangesNothing | app/services/namespace_service.py:70-223 | a request that fails or is refused changes no namespace, unless the server served it and only its answer was lost |
| Provenance.ReservedNamesAreRefused | app/domain/kubernetes_models.py:352-354 | a creation, relabel or re-annotation of `default` or a name starting with `kube-` is refused and leaves the cluster as it was |
| Provenance.CreateTakesEffectIff | app/services/namespace_service.py:70-126 | a creation takes effect if and only if it is served, the name is free, unreserved and a DNS label of at most 63 characters, and every key and value may be used |
| Provenance.RelabelTakesEffectIff | app/services/namespace_service.py:128-173 | a relabel takes effect if and only if it is served, the namespace is there and not reserved, something changes, no key is both set and removed, and every key and value may be used |
| Provenance.AnnotateTakesEffectIff | app/services/namespace_service.py:175-223 | the same for a re-annotation |
| Provenance.CreationStamps | app/services/namespace_service.py:97-110 | a creation stamps creator, time and request id (absent without one) and no later change, keeps the caller keys and adds the name label |
| Provenance.ChangeStamps | app/services/namespace_service.py:152-215 | a later change stamps who, when and its request id and leaves the creation stamps |
| Provenance.ConflictTellsThePhase | app/services/namespace_service.py:111-126 | a taken name is reported with the phase of the namespace that has it, or none if it is gone when looked for, and a failing look with its error |
| Provenance.MissingNamespaceIsReported | app/services/namespace_service.py:156-166 | a change of a namespace that is not there is answered as not found |
| Provenance.BrokenRequestIsReported | app/services/namespace_service.py:97-223 | a request that is sent and goes wrong is answered with what went wrong after one call; a 404 of a change is a missing namespace |
| Provenance.RefusalNamesTheKeys | app/services/namespace_service.py:290-317 | keys under the prefix are refused before anything is sent, and the refusal names exactly those |
| Provenance.StepAgrees | app/services/namespace_service.py:70-223 | each request, failure, lost answer or foreign edit keeps what all five stamps say true |
| Provenance.ProvenanceOverEveryRun | app/services/namespace_service.py:97-223 | after every run, creators and creation times are those recorded, last-modified-by and -at are those of the latest change that took effect and absent before the first, last-request-id is that of the latest write that took effect or absent if it had none, and every namespace is labelled with its name |
| Provenance.CreationIsNeverRewritten | app/services/namespace_service.py:97-223 | until a namespace is deleted no run changes who created it and when |
| Provenance.RelabelTouchesOnlyWhatItNames | app/services/namespace_service.py:148-173 | a relabel that takes effect changes the named labels and the stamps and nothing else |
| Provenance.AnnotateTouchesOnlyWhatItNames | app/services/namespace_service.py:194-223 | a re-annotation that takes effect changes the named annotations and the stamps and nothing else |
| NamespaceListing.ListNamespaces | app/services/namespace_service.py:225-269 | the paging loop answers with the wanted namespaces of all pages, or the first failure; an unknown status or a refused selector is the caller's mistake |
| NamespaceListing.WantedMeans | app/services/namespace_service.py:245-264 | wanted is one of the prefixes, if any, and one of the statuses in whatever case, if any |
| NamespaceListing.FailuresOfAListing | app/services/namespace_service.py:245-250 | an unknown status is refused whatever the server says; a 400 is the caller's mistake and any other failure the API's |
| NamespaceListing.PagingIsInvisible | app/services/namespace_service.py:254-266 | whatever the page size, following the tokens neither loses, repeats nor reorders a namespace |
| NamespaceListing.ListingMeansItsFilters | app/services/namespace_service.py:225-269 | listing with well-formed clauses gives exactly the namespaces satisfying all of them, one prefix and one status |
| NamespaceListing.NoSelectorNoTest | app/services/dry_run_kube_client.py:528-535 | without a selector all namespaces are looked at |
| NamespaceListing.MalformedSelectorIsRefused | app/services/namespace_service.py:344-359 | the listing is refused as a bad selector if and only if some clause is malformed |
| LabelSelector.MatcherUndoesPrint | app/services/dry_run_kube_client.py:597-612 | each printed well-formed clause is read back as its own test |
| LabelSelector.TestOfMeans | app/services/dry_run_kube_client.py:597-612 | the test read back means what the clause promises; `!=` holds for an absent key |
| LabelSelector.KeyShapeMeans | app/services/dry_run_kube_client.py:594 | a key is a name, or a prefix of lower-case letters, digits, dots and dashes, a slash and a name |
| LabelSelector.KeysAreChecked | app/services/dry_run_kube_client.py:597-612 | a clause is refused if and only if what it names, stripped, is not a key, with an operator or without |
| LabelSelector.SpacesDoNotMatter | app/services/dry_run_kube_client.py:597-612 | white space around key, operator and value changes nothing |
| LabelSelector.EmptyValuesAreRead | app/services/dry_run_kube_client.py:597-609 | a clause without a value asks for the empty value |
| LabelSelector.SelectorUndoesPrint | app/services/dry_run_kube_client.py:528-535 | joining well-formed clauses with commas and parsing gives exactly their conjunction |
| LabelSelector.OneBadClauseRefusesAll | app/services/dry_run_kube_client.py:528-535 | a selector is refused if and only if one of its clauses is |
| Strings.SplitJoin | app/services/dry_run_kube_client.py:530 | splitting undoes joining when no part holds the separator |
| Strings.StripAround | app/services/dry_run_kube_client.py:601-602 | stripping takes away exactly the white space around a text |
| Strings.SpacesAre | app/services/dry_run_kube_client.py:601-602 | which characters are white space |
| Strings.LowerMeans | app/services/namespace_service.py:245-251 | a text lowers to a word exactly when it is that word in whatever case |
| Utf8.DecodeEncode | app/clients/dry_run_command_service_client.py:231-232 | decoding undoes encoding, whatever bytes follow |
| Utf8.EncodeAppends | app/clients/dry_run_command_service_client.py:231 | the bytes of a log that grew start with the bytes it had |
| Utf8.EncodedShape | app/clients/dry_run_command_service_client.py:231 | one to four bytes by code point, ASCII and only ASCII as itself |
| Utf8.DecodeFromTheMiddle | app/clients/dry_run_command_service_client.py:232 | an offset inside a character shows U+FFFD for each byte left of it and then the rest |
| Utf8.DecodeCutOff | app/clients/dry_run_command_service_client.py:232 | text cut inside a character ends in one U+FFFD |
| CommandTrace.CommandService.ExecuteCommand | app/clients/dry_run_command_service_client.py:133-172 | an unknown command is refused; a known one is recorded as running with its first log lines |
| CommandTrace.CommandService.Observe | app/clients/dry_run_command_service_client.py:263-274 | the first look at a running execution completes it and closes its log |
| CommandTrace.CommandService.GetCommandResult | app/clients/dry_run_command_service_client.py:174-196 | completes on first look; JSON is refused where not declared and given on success only |
| CommandTrace.CommandService.KillCommand | app/clients/dry_run_command_service_client.py:198-215 | only a killable execution that still runs is killed and logged |
| CommandTrace.CommandService.GetCommandTrace | app/clients/dry_run_command_service_client.py:217-248 | the lines past the byte offset, numbered one after the other from the given number, and the cursor after them |
| CommandTrace.WhitelistedOnly | app/clients/dry_run_command_service_client.py:133-172 | exactly the two known commands can be started, running, under a new id, touching no other execution |
| CommandTrace.PingLife | app/clients/dry_run_command_service_client.py:71-90 | a ping is logged and killable: its log at each stage, success at the first look, killed only while running, no JSON |
| CommandTrace.FactsLife | app/clients/dry_run_command_service_client.py:71-90 | facts are JSON at the first look, without a log, and cannot be killed |
| CommandTrace.UnknownExecution | app/clients/dry_run_command_service_client.py:256-261 | what nobody started is not found and nothing changes |
| CommandTrace.LinesEndAtBreaks | app/clients/dry_run_command_service_client.py:232 | each of the ten break characters ends one line, a carriage return and newline together do, and the rest is a line |
| CommandTrace.PlainEntriesAreLines | app/clients/dry_run_command_service_client.py:231-232 | entries without a break are the lines of the log |
| CommandTrace.EscapeIsFaithful | app/clients/dry_run_command_service_client.py:234 | undoing the five entities gives the line back, what is shown holds no markup, and a line without markup is shown as it is |
| CommandTrace.SplitLinesAtNewline | app/clients/dry_run_command_service_client.py:232 | lines can be split separately before and after a newline |
| CommandTrace.SliceShowsTheRest | app/clients/dry_run_command_service_client.py:229-241 | a poll from just after some logged entries shows exactly the lines logged since, the i-th under the given number plus i, each readable back and free of markup |
| CommandTrace.NothingPastTheEnd | app/clients/dry_run_command_service_client.py:229-241 | a poll from the end of the log or past it shows nothing and answers with the end as the cursor |
| CommandTrace.RunGrows | app/clients/dry_run_command_service_client.py:198-274 | over any calls a log only grows by whole entries, and a finished execution never changes |
| CommandTrace.RunFollows | app/clients/dry_run_command_service_client.py:217-248 | a viewer that follows the cursor has at any time seen exactly a prefix of the log's entries, numbered from 1 |
| CommandTrace.ViewerSeesTheLogExactlyOnce | app/clients/dry_run_command_service_client.py:217-274 | between any other calls, polls that follow the cursor from (0, 1) add up to all lines of the log: as many as it has, the i-th numbered i, each readable back and free of markup, and no line comes later |
| CommandTrace.EveryEntryIsShownOnce | app/clients/dry_run_command_service_client.py:217-274 | in numbers, and entry by entry when no entry holds a line break |
| CommandTrace.FollowedShows | app/clients/dry_run_command_service_client.py:229-241 | at any time what a follower has seen is numbered from 1 and shown faithfully |
| Sorting.SortedInOrder | app/clients/dry_run_deploy_service_client.py:143-144 | sorting puts pairs in order |
| Sorting.OneOrder | app/clients/dry_run_deploy_service_client.py:143-144 | a list in order is determined by its multiset |
| Sorting.StringUpToMeans | app/clients/dry_run_deploy_service_client.py:143-144 | texts are compared at the first character in which they differ, a text before its continuations |
| Sorting.SortedMembers | app/services/node_service.py:531-534 | lists a set in order, each member once |
| Sorting.OneListing | app/services/node_service.py:531-534 | there is only one such list |
| Pipelines.SameVariablesMeans | app/clients/dry_run_deploy_service_client.py:143-144 | comparing sorted variables is comparing multisets |
| Pipelines.DeployService.TriggerPipeline | app/clients/dry_run_deploy_service_client.py:152-195 | records a running pipeline under a new id, or refuses with the ids of its duplicates |
| Pipelines.DeployService.CheckRunning | app/clients/dry_run_deploy_service_client.py:197-212 | the active pipelines of that ref and variables, with their count, changing nothing |
| Pipelines.DeployService.SetStatus | app/clients/dry_run_deploy_service_client.py:321-328 | the status goes to the pipeline and every job of it, and the finish time with it |
| Pipelines.DeployService.GetPipeline | app/clients/dry_run_deploy_service_client.py:214-225 | the first look at a running pipeline finishes it |
| Pipelines.DeployService.CancelPipeline | app/clients/dry_run_deploy_service_client.py:227-236 | cancels an active pipeline, leaves any other |
| Pipelines.DeployService.RetryPipeline | app/clients/dry_run_deploy_service_client.py:238-247 | restarts a canceled or failed pipeline, leaves any other |
| Pipelines.RunInv | app/clients/dry_run_deploy_service_client.py:111-247 | over every run ids are distinct and increasing, each job has its pipeline's status, and a finish time is set if and only if the pipeline is not running |
| Pipelines.RunKeepsPipelines | app/clients/dry_run_deploy_service_client.py:152-247 | no pipeline is lost, reordered or changed in id, ref, variables or creation time |
| Pipelines.TriggerIsRefusedIff | app/clients/dry_run_deploy_service_client.py:164-172 | a trigger is refused if and only if an active pipeline has the same ref and variable multiset, and names exactly those |
| Pipelines.TriggerRecords | app/clients/dry_run_deploy_service_client.py:152-195 | what a trigger records: the next id (the first is 9990000001), the action as first variable, one job, all running from now; nothing else changes |
| Pipelines.LifecycleMeans | app/clients/dry_run_deploy_service_client.py:214-247 | a look finishes what runs, a cancel ends what has not ended, a retry restarts what was canceled or failed, jobs and times with it; everything else stays |
| Pipelines.ConflictsInOrder | app/clients/dry_run_deploy_service_client.py:306-319 | a refusal lists duplicates in the order they were triggered |
| Pipelines.PolledIsOver | app/clients/dry_run_deploy_service_client.py:214-225 | one poll ends a pipeline, and without a retry of it nothing about it changes again |
| Pipelines.RetryKeepsOneActiveIff | app/clients/dry_run_deploy_service_client.py:238-241 | a retry keeps at most one active pipeline per ref and variables if and only if the duplicate check would have found none (or the retry does nothing) |
| Pipelines.AtMostOneActive | app/clients/dry_run_deploy_service_client.py:152-247 | over every run whose retries ask first, at most one pipeline is active per ref and variable multiset |
| Pipelines.CallKeepsOneActiveIff | app/clients/dry_run_deploy_service_client.py:152-247 | of all calls exactly a retry beside an active duplicate ends it |
| Pipelines.OneActiveThroughoutIff | app/clients/dry_run_deploy_service_client.py:152-247 | at most one is active after every call of a run if and only if the retries of the run ask first |
| Pipelines.AtMostOneActiveWithoutRetry | app/clients/dry_run_deploy_service_client.py:152-236 | so it is over every run without a retry |
| Pipelines.RetryRevivesADuplicate | app/clients/dry_run_deploy_service_client.py:238-241 | from any store: cancel a running pipeline, trigger the same work, retry the first, and two are active |
| Pipelines.FourCallsMakeTwoActive | app/clients/dry_run_deploy_service_client.py:238-241 | from the empty store: trigger, cancel, the same trigger, retry of the first makes two active |
| TokenManagement.TokenManager.Refresh | app/core/token_manager.py:47-55 | token and expiry change together, or not at all when the fetch fails |
| TokenManagement.TokenManager.GetToken | app/core/token_manager.py:39-45 | uninterrupted, it returns a token it fetched or one not yet within 30 s of its end |
| TokenManagement.InvStep | app/core/token_manager.py:39-59 | every step of every task keeps the fields in agreement with the latest completed fetch |
| TokenManagement.TokenAndExpiryBelongTogether | app/core/token_manager.py:39-59 | over every interleaving of locked get_token and unlocked refresh, token and expiry come from one fetch, and one task is past the lock |
| TokenManagement.LockIsGivenBack | app/core/token_manager.py:41-45 | over every interleaving the lock is taken if and only if some task is past it, however calls end |
| TokenManagement.NobodyIsLockedOut | app/core/token_manager.py:41-45 | in every run a waiting task gets in as soon as the one inside is done, even by failing |
| TokenManagement.HandedOutTokensAreGood | app/core/token_manager.py:39-59 | over every interleaving, each token returned was fetched within that call or has more than 30 s of its reported lifetime left, counted from its fetch's completion |
| TokenManagement.ThirtySecondsLeft | app/core/token_manager.py:39-59 | in seconds: on a clock after the epoch each token returned is the latest fetch's, fetched within that call or with more than 30 s left |
| TokenManagement.NoNeedlessFetch | app/core/token_manager.py:42-44 | get_token starts a fetch only when what it held was empty or ending |
| TokenManagement.FetchedOnlyInTheLastThirtySeconds | app/core/token_manager.py:42-54 | in seconds: get_token starts a fetch only when the held token is empty or has at most 30 s left |
| TokenManagement.InitialTokenIsNeverUsed | app/core/token_manager.py:27-28 | on a clock that never shows a time before the epoch, the initial token is never handed out |
| TokenManagement.RefreshedTokenIsTheOneUsed | app/clients/deploy_service_client.py:84-92 | after a refresh every token returned is that of the refresh or of a fetch completed after it |
| TokenManagement.OneFetchServesAll | app/core/token_manager.py:41-45 | while a held token lasts, any number of interleaved callers get it without another fetch |
| TokenManagement.AloneIsGetToken | app/core/token_manager.py:39-45 | a task running alone through the machine does what `TokenManager.GetToken` does |
| TokenManagement.SlowAnswerOverwrites | app/core/token_manager.py:47-54 | from any state, when of two pending fetches the one started later is answered first, the answer of the other overwrites its token |
| TokenManagement.TwoRefreshesOverwrite | app/core/token_manager.py:47-54 | two refreshes from the start are enough to hold the older token and lose the newest |
| TokenManagement.SettleIff | app/core/token_manager.py:47-55 | however the fetches under way come to their end, in every run, the newest token stays held if and only if at most one is under way and it was started after everything that came |
| TokenManagement.RefreshIsSafeIff | app/core/token_manager.py:47-55 | a refresh is sure to leave the newest token held if and only if no fetch is under way when it is asked for |
| TokenManagement.EveryRunIsNumbered | app/core/token_manager.py:39-55 | over every run the fetches under way are told apart by the order in which they were started |
| TokenManagement.LockKeepsNewest | app/core/token_manager.py:39-45 | over every run of get_token alone, fetches complete in the order they were started and the newest token is held |
| TokenManagement.FirstCallHandsOut | app/core/token_manager.py:27-28 | with a clock before the epoch the first call is handed the initial token |
| TokenManagement.InitialTokenHandedOutIff | app/core/token_manager.py:27-28 | for every list of clock readings: some run with them hands out the initial token unfetched if and only if there is one and some reading, the first included, is before the epoch |

## Left out

- The HTTP layer, authentication, hashing and JWT, the login and log pages, logging and all message texts: codes, ids, reasons and lists are kept, prose is not.
- The network clients and the Kubernetes SDK: the API server is the in-memory server plus weather; the deploy and command services are their in-memory stand-ins.
- The regular expression engine and the glob matcher: policy patterns and action globs are parameters; label and name shapes are written out as character predicates.
- JSON, YAML and request-model parsing, and reading of files: a parsed document, a validated request, or the fact that there is none.
- Cluster repositories, inventory lookups, static fixtures and thin pass-through services.
- ConfigMaps, node and pod listings, `get_node`, `label_node` and `annotate_node`: the same merge, paging and error paths as the parts modelled. In particular it is not shown that a label update with nothing to send answers with an empty map.
- Node, pod, namespace and pipeline objects are values in maps and lists held by a class, so in-place change of one object seen through two references is not captured; returned deep copies are plain values.
- KubeApi.CoreV1Api.ListNode: nodes are a map, so the order in which they are listed is not modelled (pods, pipelines and namespaces in a listing keep theirs).
- DrainService.WaitForPodsGone: the clock is an exact real that never runs backwards, and a sleep lasts at least its two seconds.
- UsersFileCache.LoadsAreLinearizable: one parse sees one version of the file; a read torn by an edit in its middle is not modelled.
- TokenManagement.HandedOutTokensAreGood: lifetimes are exact reals, and waiting tasks get the lock in any order, where the program's lock is first come, first served.
- CommandTrace.ViewerSeesTheLogExactlyOnce: ids are counted where the program draws random ones; host type, resolved address, messages and the JSON payload are not part of an answer; text is sequences of Unicode scalar values, so a lone surrogate cannot occur.
- Pipelines.RunInv: poll counters, tags and web links carry no promise and are left out.
- Provenance.ProvenanceOverEveryRun: others are taken to keep off the service's prefix and off the name label.
- Namespaces.NamespaceService.CreateNamespace: the refused keys are a set; their order in the message is not modelled.
- NamespaceListing.ListNamespaces: the server is taken to reach a last page or to fail; with one that never does the program's loop does not end, and a method here must.
- AccessPolicy.AcceptedDocumentHasUniqueIds: only the duplicate checks of a document are modelled, not its other field rules.
