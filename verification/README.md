# Concurrent, restartable workers: a verified model

This project models the parts of OpenHands Enterprise and kArena where several workers share a table or a
lease store, may stop at any `await`, and start again, together with the parsing and scoring code beside
them. The protocols are state machines: each event is what one worker does between two awaits, a run is any
interleaving, and the main results hold in every state of every run. The routines that change tables or
fields step by step are classes and methods with the source's loops; each is proved to have the effect of
the protocol's events, or to compute a function about which the results are stated.

| module | what it models |
|---|---|
| `ConversationLease`, `ClusterNode` | the Redis lease by which the nodes of a cluster compete for a conversation |
| `WebhookQueue`, `WebhookInstaller` | the GitLab webhook installer and the queue it works through |
| `BuildPipeline`, `BuildDatabase` | kernel cache builds, base images and developer patches over four tables |
| `RunPlanner` | the query for bugs with too few patches, and the batch made from it |
| `ReplicaBalancer` | least-loaded choice among model replicas |
| `TokenRefresh` | refreshing tokens under a row lock |
| `ConversationStarter` | starting a conversation about failed workflows once |
| `EventMirror` | mirroring the events of a nested conversation by polling |
| `ResumableEvaluation` | evaluations that are stopped and resumed |
| `PatchImporter` | importing patches in parallel with reproducible order |
| `CrashEvaluation`, `KGymVerdict` | two-phase crash evaluations and the interpretation of finished jobs |
| `VerdictParser` | reading a judge's reply and counting votes |
| `Localization` | intersection over union of modified files and functions |
| `Prelude`, `Text`, `KArenaModels` | shared vocabulary and helpers |

`dafny verify dfyconfig.toml` checks the whole project.

## Assumptions

- Lease: the two timing bounds of `GapBoundIsExact`, or the refresh schedule of `RefreshesSuffice`, which implies them; Redis executes each command atomically and its clock does not run backwards.
- Webhooks: `last_synced` is never null, rows keep the resource they name, every other writer stamps the current time, resources are unique (`OpenHands/enterprise/migrations/versions/027_create_gitlab_webhook_table.py:44-50`), and the clock has moved on since the last stamp when a run starts.
- Finished kGym jobs never change, and whether one can be interpreted does not change either.
- A scan of the store returns every key that lives throughout it, and only keys that lived at some moment of it.
- The identity provider never issues a refresh token twice.
- A conversation id belongs to one user (`LostHolderIsDetected`).
- Process functions label a result with the id of their instance (`RunEvaluation`); the sample and the caller's filter are functions of the rows.
- The source of a mirrored conversation numbers its events from 0 without gaps and only appends.

## Where code and documentation differ

- `update_conversation_metadata` (`OpenHands/enterprise/server/utils/conversation_callback_utils.py:121-156`) ignores the `last_updated_at` it is given and stores the clock's time, so the stored time can move back (`EventMirror.ClockBehindMovesBack`, and `StoredTimeIff` for exactly when). A poll for a conversation without a stored time stops at the first event that has one, since the two cannot be compared (`EventMirror.UntimedMirrorIsStuck`).
- The description of `get_pending_kenv_base_builds` (`kArena/db/kenv_base.py:76-88`) says that a row left in `building` by a crash is claimed and built again; it is selected again, but only `pending` rows can be claimed (`kArena/db/kenv_base.py:98-103`). The model follows the code, and `BuildPipeline.FinishesIff` says which rows can still be finished.
- A poll's docstring promises the downloaded report of a reproduced crash (`kArena/crawler.py:314-319`); a failed download leaves none for good, or erases one (`BuildPipeline.LastDownloadDecides`).
- The single-worker branch of `run_evaluation` does not pass the timeout on, so `TimesOut` can only arise there if the process function raises it itself.
- With zero votes the judge reports an error, since all of none failed.

## Model

| member | source | states |
|---|---|---|
| `ConversationLease.MutualExclusion` | OpenHands/enterprise/server/clustered_conversation_manager.py:390-420 | over every interleaving of claims, refreshes, closes, exceptions, crashes and time, if every gap since a node's last write of a key stays below the key's life, no two nodes ever hold the same conversation |
| `ConversationLease.GapBoundIsExact` | OpenHands/enterprise/server/clustered_conversation_manager.py:398-405 | bounds on the claim/refresh gap and on the close gap guarantee mutual exclusion if and only if both are below the 15 s life of a key |
| `ConversationLease.LateRefreshBreaksExclusion` | OpenHands/enterprise/server/clustered_conversation_manager.py:436-484 | with a refresh gap of 15 s allowed there is a run with two holders |
| `ConversationLease.LateDeleteBreaksExclusion` | OpenHands/enterprise/server/clustered_conversation_manager.py:639-651 | with a late delete allowed, the delete of an expired lease removes the next holder's key and a third node becomes a second holder, although neither holder was late |
| `ConversationLease.StepKeepsInv` | OpenHands/enterprise/server/clustered_conversation_manager.py:398-405 | the inductive invariant: a node that starts, holds or closes a conversation wrote its key, the key lives at least 15 s from that write, and no other node is engaged |
| `ConversationLease.RefreshRenews` | OpenHands/enterprise/server/clustered_conversation_manager.py:447-484 | a refresh gives the key of every conversation with a non-empty id that the node held when it collected its loops a full 15 s from the moment the pipeline takes effect |
| `ConversationLease.HolderKeepsLease` | OpenHands/enterprise/server/clustered_conversation_manager.py:436-484 | a holder whose refreshes follow each other within 15 s keeps its key live, with nobody else engaged, in every state until it drops the loop, however late other nodes are |
| `ConversationLease.RefreshesSuffice` | OpenHands/enterprise/server/clustered_conversation_manager.py:398-484 | the timing assumption in terms of what nodes do: if each node creates or refreshes the keys it is engaged with in time, no two nodes ever hold one conversation and every such key is live |
| `ConversationLease.EmptyIdIsNotRefreshed` | OpenHands/enterprise/server/clustered_conversation_manager.py:458-466 | where that ends: a conversation with an empty id is never refreshed, so its key expires 15 s after it was created |
| `ConversationLease.OrphanStaysOrphaned` | OpenHands/enterprise/server/clustered_conversation_manager.py:447-466 | once no node is engaged with a key, only a new `SET NX` can change that; no refresh is assembled for it again |
| `ConversationLease.CrashOrphans` | OpenHands/enterprise/server/clustered_conversation_manager.py:486-497 | in a timely run the crash of the node that starts, holds or closes a conversation, with no delete of its key under way, leaves no node engaged with it |
| `ConversationLease.CrashedLeaseExpires` | OpenHands/enterprise/server/clustered_conversation_manager.py:447-484 | after such a crash the key expires within 15 s of the crash, or of a refresh that some node had assembled by then |
| `ConversationLease.OrphanExpires` | OpenHands/enterprise/server/clustered_conversation_manager.py:447-484 | the same from any state in which no node is engaged with the key, however it came about |
| `ConversationLease.StrayRefreshIsSingle` | OpenHands/enterprise/server/clustered_conversation_manager.py:455-484 | such a late refresh happens at most once per node, and only where it was in flight when the holder was lost |
| `ConversationLease.StoppedHadNoOwner` | OpenHands/enterprise/server/clustered_conversation_manager.py:486-514 | no false alarm: when a node takes a conversation for stopped after its scan, in a timely run, then for every user there was a moment during the scan at which no node started, held or closed it; if one does at the end, it has created the key since |
| `ConversationLease.AlarmCanBeStale` | OpenHands/enterprise/server/clustered_conversation_manager.py:499-514 | that is all a scan can promise: a run in which a key is created during the scan, and its conversation is taken for stopped while a node is starting it |
| `ConversationLease.LostHolderIsDetected` | OpenHands/enterprise/server/clustered_conversation_manager.py:499-514 | no missed alarm: a scan that starts 15 s after the holder crashed and after the last stray refresh, and ends before anyone creates the key again, makes every surviving node that had a connection at its start take the conversation for stopped |
| `ConversationLease.FirstRetryWins` | OpenHands/enterprise/server/clustered_conversation_manager.py:728-749 | of all retries exactly the first `SET NX` wins: until its winner deletes the key or 15 s pass, each further attempt leaves the whole cluster unchanged |
| `ClusterNode.RedisStore.SetNx` | OpenHands/enterprise/server/clustered_conversation_manager.py:398-400 | a key is created exactly if no live one exists, and then lives 15 s |
| `ClusterNode.ConversationManager.constructor` | OpenHands/enterprise/server/clustered_conversation_manager.py:84-90 | a fresh node is idle and allows one more conversation than configured |
| `ClusterNode.ConversationManager.TryClaim` | OpenHands/enterprise/server/clustered_conversation_manager.py:398-405 | the claim has on node and store exactly the effect of the protocol's event, and succeeds exactly without a live key |
| `ClusterNode.ConversationManager.RegisterLoop` | OpenHands/enterprise/server/clustered_conversation_manager.py:751-799 | registering the started loop is the protocol's event |
| `ClusterNode.ConversationManager.GetEventStore` | OpenHands/enterprise/server/clustered_conversation_manager.py:225-238 | the answer is local exactly for a local loop, and missing exactly if there is neither a local loop nor a live key |
| `ClusterNode.ConversationManager.AssembleRefresh` | OpenHands/enterprise/server/clustered_conversation_manager.py:455-466 | the loop over the local sessions collects a key exactly if its conversation has a non-empty id and runs here for that user |
| `ClusterNode.ConversationManager.ExecuteRefresh` | OpenHands/enterprise/server/clustered_conversation_manager.py:483-484 | executing the pipeline write by write gives every collected key its full life and changes nothing else |
| `ClusterNode.ConversationManager.PopLoop` | OpenHands/enterprise/server/clustered_conversation_manager.py:640-648 | after the awaits for the connections, a close drops the loop and remembers its key as the protocol's event does; without a local loop nothing changes |
| `ClusterNode.ConversationManager.DeleteKey` | OpenHands/enterprise/server/clustered_conversation_manager.py:650-651 | the second half deletes the key whoever owns it by then |
| `ClusterNode.ConversationManager.StartDetection` | OpenHands/enterprise/server/clustered_conversation_manager.py:499-503 | before the scan, the loop over the connections gives the set that the detection theorems start from |
| `ClusterNode.ConversationManager.DecideStopped` | OpenHands/enterprise/server/clustered_conversation_manager.py:508-541 | after the scan, the stopped conversations are those of the detection theorems, and exactly the connections that then lead to one of them are handled |
| `ClusterNode.ConversationManager.GetRunningAgentLoops` | OpenHands/enterprise/server/clustered_conversation_manager.py:240-249 | the shortcut that skips the remote scan gives the same set as always scanning |
| `ClusterNode.RunningLoopsMeaning` | OpenHands/enterprise/server/clustered_conversation_manager.py:240-279 | a conversation is listed exactly if it passes the filter and runs, here or by a live key, for some user who is the one asked for, if one is |
| `ClusterNode.ConversationManager.FindStopped` | OpenHands/enterprise/server/clustered_conversation_manager.py:728-735 | before the wait: the conversation of a known user's connection, if there is one |
| `ClusterNode.ConversationManager.HandleRemoteConversationStopped` | OpenHands/enterprise/server/clustered_conversation_manager.py:737-749 | after the wait: a restart is attempted exactly if the conversation was found and the user's running conversations are by then within the limit, with the right key |
| `WebhookQueue.WaitIsBounded` | OpenHands/enterprise/storage/gitlab_webhook_store.py:188-198 | starvation freedom: before a waiting row of rank r gets its turn, fewer than r rows are finished, fewer than r runs finish any row, and fewer than ceil(r/100) runs finish their whole batch, whatever rows others add, change or delete and wherever runs stop |
| `WebhookQueue.RowGetsItsTurn` | OpenHands/enterprise/sync/install_gitlab_webhooks.py:272-319 | from the row's side: after r productive or ceil(r/100) complete runs it has been processed, unless another user changed or removed it |
| `WebhookQueue.NobodyOvertakes` | OpenHands/enterprise/sync/install_gitlab_webhooks.py:305-319 | no step moves a row ahead of a waiting one, and a row that a run is done with falls behind it |
| `WebhookQueue.StepUsesPotential` | OpenHands/enterprise/sync/install_gitlab_webhooks.py:272-319 | each finished row uses one unit of the number of rows that can still come first; nothing adds to it |
| `WebhookQueue.ProcessedEffect` | OpenHands/enterprise/sync/install_gitlab_webhooks.py:155-241 | whatever GitLab answers, processing a row rewrites or deletes only rows of its own resource, keeps resources unique, and restamps the row if the final write works |
| `WebhookQueue.TurnDecides` | OpenHands/enterprise/sync/install_gitlab_webhooks.py:288-319 | from GitLab's replies alone: exactly when a fetched row gets its webhook, when it is removed, when it stays pending, when an exception ends the run, and which stamp it then has; no other row is touched |
| `WebhookQueue.StepKeepsInv` | OpenHands/enterprise/storage/gitlab_webhook_store.py:79-173 | unique resources, monotone stamps and the fetched batch's consistency with the table hold after every step |
| `WebhookQueue.HeadRowDecides` | OpenHands/enterprise/storage/gitlab_webhook_store.py:20-31 | whatever GitLab answers, if the final write works the first row of a run is restamped or removed if and only if it names a group or a project and not both; otherwise the run ends with the table unchanged |
| `WebhookQueue.MalformedRowStarvesAll` | OpenHands/enterprise/sync/install_gitlab_webhooks.py:272-319 | where the guarantee ends: with an oldest pending row that names no resource or two, no number of runs changes any row |
| `WebhookInstaller.GitlabWebhookStore.FilterRows` | OpenHands/enterprise/storage/gitlab_webhook_store.py:175-198 | the batch holds distinct pending rows, oldest first, none younger than a pending row left out, and as many as the limit allows |
| `WebhookInstaller.CheckOrDelete` | OpenHands/enterprise/sync/install_gitlab_webhooks.py:44-113 | a missing resource or missing rights delete the row and stop with it; rate limits stop without a change; exceptions escape |
| `WebhookInstaller.ProcessRow` | OpenHands/enterprise/sync/install_gitlab_webhooks.py:272-319 | checks, installation, exception handling and the final stamp leave the row installed, removed or pending as the replies say, and end the run exactly if it names no single resource or an exception escapes |
| `WebhookInstaller.InstallWebhooks` | OpenHands/enterprise/sync/install_gitlab_webhooks.py:259-319 | a whole run fetches the oldest 100 pending rows and takes them in order up to the first escaping exception; each row that has its turn ends installed, removed or pending as its own replies say, and every other row is as before |
| `WebhookInstaller.ProgramRunIsQueueRun` | OpenHands/enterprise/sync/install_gitlab_webhooks.py:243-319 | what the program's run does is one more run of the queue, with its clock, its fetch and its table; it is productive if the oldest row names one resource and its stamp is written, and complete if no row fails |
| `WebhookInstaller.ProgramServesRow` | OpenHands/enterprise/sync/install_gitlab_webhooks.py:243-319 | starvation freedom for the program: when all but one of the productive runs that a waiting row's rank allows have passed, the next run of the program gives the row its turn |
| `BuildPipeline.ProvenanceHolds` | kArena/crawler.py:428-466 | in every reachable state each image row stands for a cached build with status success, verdict reproduced and a storage key, and each developer patch for a parent-commit image that is built or pushed |
| `BuildPipeline.OneBuilderPerImage` | kArena/db/kenv_base.py:90-107 | over any interleaving of any number of build passes with tasks dying at any await, at most one claim of an image row ever succeeds, and no two live tasks build one row |
| `BuildPipeline.StatusMovesForward` | kArena/db/kenv_base.py:109-169 | along a run a status only goes pending, building, then built, pushed or error, one place at each step; a final row never changes, so no time is ever erased; the build time is set exactly in built or pushed rows and the push time exactly in pushed ones |
| `BuildPipeline.FinishesIff` | kArena/db/kenv_base.py:76-107 | a row can still be finished if and only if it is not in state building without a task, although every later pass selects it |
| `BuildPipeline.CrashStrands` | kArena/db/kenv_base.py:76-88 | the case in point: the crash of any builder leaves its row selected and claimed for good |
| `BuildPipeline.VerdictIsFinal` | kArena/crawler.py:372-412 | from the moment a cached build is not awaiting a poll any more its job, status, verdict and storage key never change, however polls overlap; only its crash report can |
| `BuildPipeline.SelectedIffVerdictCanChange` | kArena/db/kcache.py:105-117 | a polling pass selects exactly the rows whose verdict, status or storage key can still change, and besides those whose finished job cannot be interpreted, which every later pass polls in vain |
| `BuildPipeline.CanChangeIff` | kArena/db/kcache.py:119-146 | a row can still change at all if and only if it awaits a verdict, or a poll of it selected earlier is still under way and may write a report other than the stored one |
| `BuildPipeline.LastDownloadDecides` | kArena/crawler.py:382-407 | if the last poll of a stored build under way cannot download the report, the row has none for good, whatever was stored before |
| `BuildPipeline.OverlapLosesReport` | kArena/crawler.py:388-405 | the case in point: of two overlapping passes the first stores a report and the second erases it for good |
| `BuildPipeline.SelectionStaysValid` | kArena/db/patches.py:207-224 | a bug selected for an image has a usable build of the parent commit if it is fixed and of the crash commit if it is open, and one selected for a developer patch a finished image, in every later state |
| `BuildPipeline.PatchIff` | kArena/crawler.py:208-690 | from any reachable state a fixed bug without a developer patch can still get one, with its status left alone, if and only if no build of its parent commit has failed or cannot be interpreted and no image of it has failed or lost its builder |
| `BuildPipeline.HopefulGetsPatch` | kArena/crawler.py:208-690 | the chain itself: submission, poll, image, claim, finish and analysis lead there from each stage |
| `BuildPipeline.CacheStep` | kArena/db/kcache.py:105-146 | with immutable finished jobs, every pending poll result agrees with the row's own job, so writing it again changes nothing but the report |
| `BuildPipeline.StepKeepsInv` | kArena/crawler.py:616-690 | the invariant behind the provenance chain, including rows selected long ago and not inserted yet |
| `BuildPipeline.ClaimsAreCounted` | kArena/crawler.py:500-531 | the number of successful claims along a run is the counter the invariant speaks about |
| `BuildDatabase.KArenaDB.ClaimKenvBaseBuild` | kArena/db/kenv_base.py:90-107 | compare-and-swap: the claim succeeds exactly on a pending row, which becomes building |
| `BuildDatabase.KArenaDB.GetBugsNeedingKenvBase` | kArena/db/kenv_base.py:171-200 | exactly the fixed bugs with a successful reproduced build of the parent commit and no image of it, or the open ones with one of the crash commit |
| `BuildDatabase.PollSingleKCacheBuild` | kArena/crawler.py:357-412 | one poll has the effect of the pipeline's write: verdict, storage key and report are the job's, success means stored and compiled; failed submissions, running jobs and jobs that cannot be interpreted change nothing |
| `BuildDatabase.SubmitKCacheBuilds` | kArena/crawler.py:208-252 | a submitting pass leaves every fixed bug with a build of its parent commit, or every open one with one of its crash commit, keeps all rows, and adds rows only for such bugs, each recording its own job or failure |
| `BuildDatabase.PopulateKCacheBuilds` | kArena/crawler.py:313-355 | a polling pass updates exactly the selected rows whose job has a result; a row left awaiting a poll has a job that runs or cannot be interpreted |
| `BuildDatabase.DriveOne` | kArena/crawler.py:500-525 | claim, build and mark of one image are the pipeline's events; the claimed row ends in error, built or pushed with its times, and a row that cannot be claimed is not touched |
| `BuildDatabase.SubmitKenvBaseBuilds` | kArena/crawler.py:414-471 | the same for images: only bugs with an unknown commit or mirror are left without one of the parent or the crash commit; rows are kept, and pending ones added only where one was missing |
| `BuildDatabase.PopulateKenvBaseBuilds` | kArena/crawler.py:473-531 | a building pass brings every pending row to error, built or pushed with its times, as its build goes, and changes no other row, not even the selected ones left in state building |
| `BuildDatabase.PopulateDeveloperPatches` | kArena/crawler.py:616-690 | an analysing pass leaves only bugs whose analysis fails without a developer patch among the fixed ones with a finished image of the parent commit, keeps the old patches, and adds at most one for a bug and only there |
| `RunPlanner.QueryIsPlan` | kArena/db/agent_patches.py:134-195 | the join, filter, grouping and having clauses return exactly the eligible bugs with fewer patches than asked for, each with the missing number |
| `RunPlanner.JoinsMultiply` | kArena/db/agent_patches.py:179-195 | on any tables, a bug's group counts its patches once for every row the earlier joins produce |
| `RunPlanner.JoinFindsAttempts` | kArena/db/agent_patches.py:183-184 | the left join collects exactly one id for each row of the bug and of the configuration asked for |
| `RunPlanner.OtherConfigsDoNotCount` | kArena/db/agent_patches.py:183-184 | rows of other configurations never change the answer, whatever the tables hold |
| `RunPlanner.QueryIsPlanIff` | kArena/db/agent_patches.py:179-195 | without the constraints the query is right on exactly the tables where every bug for which the joins produce several rows has no patch at all or enough of them |
| `RunPlanner.DuplicateRowMiscounts` | kArena/db/schema.py:37 | for instance a duplicated cache row hides the missing patch of a bug with one patch of two |
| `RunPlanner.NoOvershoot` | kArena/agent_patch_process.py:76-118 | at every moment of every schedule of the batch's tasks, with attempts that fail and tasks that are cancelled anywhere, no returned bug is above the target and no other bug has gained a patch |
| `RunPlanner.ScheduleCounts` | kArena/agent_patch_process.py:99-118 | in every state of every schedule each attempt that has ended left a row or failed, none was made beyond the plan, and all rows carry the batch's number |
| `RunPlanner.DoneIffAllSucceeded` | kArena/agent_patch_process.py:145-155 | at any moment of any schedule, asking again returns nothing if and only if every planned attempt has inserted a patch |
| `RunPlanner.BugRunsOfPlan` | kArena/agent_patch_process.py:70-74 | the constructor's dictionary gives back exactly the query's result |
| `RunPlanner.LastEntryWins` | kArena/agent_patch_process.py:70-74 | the dictionary's keys are the listed bugs, and the last entry for a bug gives its number of runs: the default for a plain id |
| `RunPlanner.SuccessesAreCounted` | kArena/agent_patch_process.py:140-160 | a task's successes are the attempts that insert a row |
| `RunPlanner.AgentPatchProcess.constructor` | kArena/agent_patch_process.py:40-74 | a bug listed twice keeps its last number of runs and is processed once |
| `RunPlanner.AgentPatchProcess.ProcessBugInstances` | kArena/agent_patch_process.py:120-160 | one bug's task is a path of the batch's state machine: it makes every planned attempt, leaves a row for each that works, and touches no other bug; without the bug's image it makes none |
| `RunPlanner.AgentPatchProcess.ProcessBugs` | kArena/agent_patch_process.py:76-118 | running the tasks one after the other under one new batch number is one of the schedules the theorems quantify over |
| `ReplicaBalancer.LoadIsBounded` | kArena/model_config_manager.py:47-63 | over any sequence of acquires and releases each count is its replica's number of live users and at most ceil(P/n), P the largest number of users so far |
| `ReplicaBalancer.PeakIsMaximum` | kArena/model_config_manager.py:47-63 | P is indeed that maximum: never exceeded, and attained |
| `ReplicaBalancer.AcquiresStayBalanced` | kArena/model_config_manager.py:53-55 | without releases the counts differ by at most one |
| `ReplicaBalancer.NextShare` | kArena/model_config_manager.py:53-55 | one more user on the least loaded replica keeps every count within its share |
| `ReplicaBalancer.LeastLoaded` | kArena/model_config_manager.py:53-54 | the index chosen has a minimal count |
| `ReplicaBalancer.LeastLoadedIsFirst` | kArena/model_config_manager.py:53-54 | of several it is the first |
| `ReplicaBalancer.ModelConfigManager.DiscoverReplicas` | kArena/model_config_manager.py:65-86 | the replicas numbered up to the first gap, else the plain directory, else an error |
| `ReplicaBalancer.ModelConfigManager.Acquire` | kArena/model_config_manager.py:46-57 | one count goes up by one, on the replica whose path is returned; a failed discovery leaves no trace |
| `TokenRefresh.SingleUseIff` | OpenHands/enterprise/storage/auth_token_store.py:99-148 | over every interleaving of loads and logins no refresh token is sent twice, if and only if no crash can fall between the provider's answer and the commit |
| `TokenRefresh.LostAnswerSpendsTwice` | OpenHands/enterprise/storage/auth_token_store.py:124-148 | such a crash makes the next load send the same token again |
| `TokenRefresh.ReturnsTheRow` | OpenHands/enterprise/storage/auth_token_store.py:148-156 | each load returns what the row holds when it gives up the lock, whatever answers were lost before |
| `TokenRefresh.SentTwiceIff` | OpenHands/enterprise/storage/auth_token_store.py:124-148 | exactly which runs send a token twice: those where, after a lost answer, a token is sent before any login has written the row |
| `TokenRefresh.RunIsClean` | OpenHands/enterprise/storage/auth_token_store.py:107-148 | until then only the lock holder is past reading, what it read is still in the row, no token was sent twice, and the row's token is unsent unless its successor is about to be written or was lost |
| `TokenRefresh.AuthTokenStore.StoreTokens` | OpenHands/enterprise/storage/auth_token_store.py:26-67 | if nothing is written between its read and its write, the row holds exactly the new tokens, whether it existed or not |
| `TokenRefresh.AuthTokenStore.WriteStore` | OpenHands/enterprise/storage/auth_token_store.py:51-67 | the second half updates only the columns that differ from what the first half read, as the protocol's event does |
| `TokenRefresh.LoginIsWholeIff` | OpenHands/enterprise/storage/auth_token_store.py:43-67 | a login's tokens are stored whole if and only if no column in which they equal what it read was changed before its write |
| `TokenRefresh.MixedLogin` | OpenHands/enterprise/storage/auth_token_store.py:43-67 | a run in which a refresh commits between a login's read and its write, and the row ends with the login's tokens and the refresh's expiry time |
| `TokenRefresh.AuthTokenStore.LoadTokens` | OpenHands/enterprise/storage/auth_token_store.py:99-156 | one load is a path of the protocol: with new tokens it stores and returns them and spends the old refresh token, otherwise it returns or keeps what the row holds and spends none |
| `ConversationStarter.StarterIsSentOnce` | OpenHands/enterprise/storage/proactive_conversation_store.py:71-131 | a group is handed back at exactly the first delivery whose merge has nothing pending and some failure; it is that merge; and it happens at most once |
| `ConversationStarter.EntryIsMerge` | OpenHands/enterprise/storage/proactive_conversation_store.py:77-130 | until then the stored map is the fold of all deliveries, and afterwards it is frozen |
| `ConversationStarter.CommitsAreIndependent` | OpenHands/enterprise/storage/proactive_conversation_store.py:57-69 | interleaved deliveries for other commits do not change a commit's entry |
| `ConversationStarter.ProactiveConversationStore.StoreWorkflowInformation` | OpenHands/enterprise/storage/proactive_conversation_store.py:28-131 | the method, with its scan of the statuses, performs one delivery on one entry |
| `EventMirror.MirrorIsPrefix` | OpenHands/enterprise/server/saas_nested_conversation_manager.py:947-979 | after any sequence of polls cut off anywhere, with the source growing meanwhile, the mirrored files are exactly those of a prefix of the source |
| `EventMirror.CompletePollCatchesUp` | OpenHands/enterprise/server/saas_nested_conversation_manager.py:967-979 | a poll that reads its last page leaves mirror and source equal if nothing has been added since |
| `EventMirror.ProcessedUnlessCut` | OpenHands/enterprise/server/saas_nested_conversation_manager.py:973-979 | events are processed in id order and none twice; an event is never processed if and only if a poll was cut off between writing and processing it |
| `EventMirror.NameRoundTrip` | OpenHands/enterprise/server/saas_nested_conversation_manager.py:996-1001 | an event's id is read back from its file name whatever the directory is called |
| `EventMirror.EventsDirIsDir` | OpenHands/openhands/storage/locations.py:4-18 | the events directory of every conversation and user ends with a slash, as the round trip needs |
| `EventMirror.EventsDirsDiffer` | OpenHands/openhands/storage/locations.py:4-14 | two conversations never share a directory, nor do two users for one conversation id, if the ids hold no slash |
| `EventMirror.EventPoller.NextId` | OpenHands/enterprise/server/saas_nested_conversation_manager.py:951-960 | one above the highest id among the file names, or 0 |
| `EventMirror.EventPoller.CopyPage` | OpenHands/enterprise/server/saas_nested_conversation_manager.py:964-979 | the events of a page are written and processed in order up to the point of interruption |
| `EventMirror.EventPoller.ReadPages` | OpenHands/openhands/events/nested_event_store.py:35-81 | reading page by page while the source grows is one contiguous copy from the first missing id, and it ends early only for a stated reason |
| `EventMirror.StoredTimeIff` | OpenHands/enterprise/server/utils/conversation_callback_utils.py:136-156 | the stored time never moves back along a history of polls if and only if the clock of every completed poll is at least the time stored before it |
| `EventMirror.ClockBehindMovesBack` | OpenHands/enterprise/server/saas_nested_conversation_manager.py:981-986 | the promise that it never does fails: stored 10, clock 5, one complete poll leaves 5 |
| `EventMirror.UntimedMirrorIsStuck` | OpenHands/enterprise/server/saas_nested_conversation_manager.py:964-972 | for a conversation without a stored time, no history of polls, in which each that completes has read past the first event with a time, ever mirrors that event, nor stores a time |
| `EventMirror.UntimedPollRaises` | OpenHands/enterprise/server/saas_nested_conversation_manager.py:964-972 | the case in point: a poll of one event with a time and a conversation without one mirrors nothing |
| `EventMirror.EventPoller.Poll` | OpenHands/enterprise/server/saas_nested_conversation_manager.py:925-986 | one poll is a step of the history the theorems speak about; it moves the stored time back exactly if it completes while the clock is behind; it reaches its end unless the budget or the answers run out, a request raises, or a time has to be compared with none |
| `ResumableEvaluation.ResumeIsExactlyOnce` | OpenHands/evaluation/utils/shared.py:232-294 | after any interrupted runs, a completed run leaves exactly one output line per selected instance, in whatever order results arrived, and later runs write nothing |
| `ResumableEvaluation.ExactlyOnceIff` | OpenHands/evaluation/utils/shared.py:285-289 | that promise holds if and only if the selected ids differ |
| `ResumableEvaluation.NeverTwice` | OpenHands/evaluation/utils/shared.py:519-545 | before that, no instance ever has two lines |
| `ResumableEvaluation.SelectIsDistinct` | OpenHands/evaluation/utils/shared.py:246-273 | every branch of the selection keeps distinct ids distinct |
| `ResumableEvaluation.SelectMeaning` | OpenHands/evaluation/utils/shared.py:246-273 | which instances are selected: those with an explicit id, from which nothing is sampled; else all but the skipped ones, from which as many as the limit are sampled; the caller's filter comes last |
| `ResumableEvaluation.KeepPicks` | OpenHands/evaluation/utils/shared.py:246-249 | explicit ids keep exactly the rows with one of them, in the order of the rows |
| `ResumableEvaluation.TodoPicks` | OpenHands/evaluation/utils/shared.py:285-289 | the instances left are exactly the selected ones without a line, in their order |
| `ResumableEvaluation.FatalCount` | OpenHands/evaluation/utils/shared.py:473-478 | the count handed to the process function is the number of earlier attempts that raised a fatal error |
| `ResumableEvaluation.Evaluation.PrepareDataset` | OpenHands/evaluation/utils/shared.py:229-294 | the instances left are exactly the selected ones without a line |
| `ResumableEvaluation.Evaluation.ProcessInstance` | OpenHands/evaluation/utils/shared.py:394-485 | at most max_retries + 1 calls; the first call that does not raise decides: its output, or one marked as timed out; if every allowed call raises, the instance fails or gets an output marked so, as errors are skipped or not |
| `ResumableEvaluation.Evaluation.RunEvaluation` | OpenHands/evaluation/utils/shared.py:519-545 | one line for each instance whose result arrived before the first failure, with that result; complete exactly if all arrived and none failed |
| `PatchImporter.ImportOrderSurvives` | kArena/db/agent_patches.py:273-303 | under every schedule of the tasks and whichever patches fail, the ordered query lists each bug's rows of the batch exactly in the order of the patches' ids, and all that reached the table |
| `PatchImporter.TimesFollowOrder` | kArena/patch_importer.py:289-294 | added times compare as (bug id, position) do, so no two patches share one |
| `PatchImporter.TimesFillRange` | kArena/patch_importer.py:245-247 | the times fill the seconds from the start up to the number of patches, without gap |
| `PatchImporter.SortIsStable` | kArena/patch_importer.py:242 | the order within a bug is ascending by id, with equal ids in their given order |
| `PatchImporter.StepKeepsInv` | kArena/patch_importer.py:300-307 | every row of the batch comes from a slot its task has passed, and no slot has two rows |
| `PatchImporter.RowStaysIff` | kArena/patch_importer.py:145-209 | a patch has its row in every later state exactly if it was imported, evaluated or not |
| `PatchImporter.RowsOfAre` | kArena/patch_importer.py:211-265 | the rows of a task are those of its patches that are not lost, in their order, and its successes those imported and evaluated; a bug whose images fail has neither |
| `PatchImporter.PatchImporter.PlanTasks` | kArena/patch_importer.py:285-294 | the running offset is the prefix sum for every bug, and the total |
| `PatchImporter.PatchImporter.ImportSinglePatch` | kArena/patch_importer.py:145-209 | one patch is the protocol's step; a patch whose evaluation cannot be recorded leaves its row but counts as failed |
| `PatchImporter.PatchImporter.ImportBugPatches` | kArena/patch_importer.py:211-265 | one task adds its surviving rows in order and reports one error per failed patch, or one for a bug whose images fail |
| `PatchImporter.PatchImporter.ImportPatches` | kArena/patch_importer.py:267-326 | the import adds the surviving rows of every bug that could be set up; its successes and failures add up to the total |
| `CrashEvaluation.OneRowIff` | kArena/db/agent_patches.py:233-253 | no patch ever gets two evaluation rows, over every interleaving with pollers, crashes and new patches, if and only if there is at most one issuer |
| `CrashEvaluation.TwoIssuersEvaluateTwice` | kArena/eval_process.py:77-101 | two passes that select before either inserts evaluate a patch twice |
| `CrashEvaluation.VerdictIsWrittenOnce` | kArena/db/eval_crash.py:90-111 | from any table to start with, a row keeps its patch and job, and its verdict goes once from missing to that of its own ended job, although several pollers that read it without one each write it |
| `CrashEvaluation.SecondWriteHappens` | kArena/evaluation/kgym_eval.py:172-202 | a reachable state in which a second poller is about to write a row that has its verdict already; its write changes nothing |
| `CrashEvaluation.StepKeepsIssueInv` | kArena/evaluation/kgym_eval.py:122-156 | nothing the only issuer still has to submit or insert has a row |
| `CrashEvaluation.UnevaluatedMeaning` | kArena/db/agent_patches.py:228-253 | a pass selects exactly the successful patches, of the given configuration if there is one, without a row |
| `CrashEvaluation.EvaluationDatabase.GetYetEvaluatedAgentPatches` | kArena/db/agent_patches.py:228-253 | exactly the successful patches, of the given configuration if there is one, without a row |
| `CrashEvaluation.EvaluationDatabase.SubmitCrashResolutionEvaluations` | kArena/eval_process.py:55-102 | afterwards exactly the selected patches whose submission and insertion work have got a row, each with a new job of its own; a failed insertion leaves a job without a row |
| `CrashEvaluation.EvaluationDatabase.PopulateCrashResolutionEvaluations` | kArena/eval_process.py:105-160 | after a polling pass a row has no verdict exactly if its job still runs or cannot be interpreted; other rows are untouched |
| `KGymVerdict.InterpretVerdict` | kArena/evaluation/verdict.py:12-73 | the loops compute the declarative verdict, said of the job's workers: best image ability of the machines, reproduced exactly with a usable image and a crash that is not special, the first such crash reported; killed builds; the three exceptions are results |
| `KGymVerdict.InterpretationIsUnique` | kArena/evaluation/verdict.py:28-73 | that declarative verdict leaves nothing open |
| `KGymVerdict.WorkersDecide` | kArena/evaluation/verdict.py:32-73 | the machines among the workers, by their places, decide a finished job, and the first worker one that did not finish |
| `KGymVerdict.OthersDoNotCount` | kArena/evaluation/verdict.py:47-49 | a worker of another kind changes nothing, wherever it stands in a finished job |
| `KGymVerdict.OrderFreeIff` | kArena/evaluation/verdict.py:51-71 | reordering the machines changes nothing of image or evaluation, nor whether an exception is raised, if and only if no usable image meets machines whose first real crashes differ in having an incident |
| `KGymVerdict.MachinesDecide` | kArena/evaluation/verdict.py:51-71 | two orders that both give a verdict give the same image and evaluation |
| `KGymVerdict.MoreMachinesNeverLower` | kArena/evaluation/verdict.py:51-71 | more machines, anywhere among the others, never lower the image or the evaluation |
| `VerdictParser.RenderedReplyParses` | kArena/evaluation/llm_judge_eval.py:106-131 | a reply in the requested format reads back its verdict, reasoning and analyses, whatever text comes before it, if that holds no opening tag of the two sections, whatever comes after it, and if the free texts avoid the tags that would end or preempt a section |
| `VerdictParser.VoteMeaning` | kArena/evaluation/llm_judge_eval.py:299-360 | a vote is yes or no exactly if there is a reply and the verdict section found in the evaluation section found in it spells one of the two words, up to white space and capital letters; everything else counts as an error |
| `VerdictParser.VerdictSpelling` | kArena/evaluation/llm_judge_eval.py:262-275 | a verdict is one of the two words exactly if, but for white space around it, it spells that word in small or capital letters |
| `Text.StripTrims` | kArena/evaluation/llm_judge_eval.py:262 | stripping leaves the text between the white space at its ends |
| `Text.SpaceCodes` | kArena/evaluation/llm_judge_eval.py:262 | the 29 code points that count as white space |
| `VerdictParser.FirstEvaluationDecides` | kArena/evaluation/llm_judge_eval.py:229-275 | text after the first evaluation block changes neither the answer nor the analyses, nor a reasoning already found |
| `VerdictParser.ExtractIsSearch` | kArena/evaluation/llm_judge_eval.py:224-251 | looking for the first opening tag and then for the first closing one finds the leftmost, shortest match of the pattern |
| `VerdictParser.AppendKeepsExtract` | kArena/evaluation/llm_judge_eval.py:229 | text after a complete section does not change what is extracted |
| `VerdictParser.NoTagAcross` | kArena/evaluation/llm_judge_eval.py:106-124 | no tag straddles the place where another tag starts |
| `VerdictParser.NoStraddle` | kArena/evaluation/llm_judge_eval.py:106-124 | no tag straddles the line break between a free text and what follows |
| `VerdictParser.RunVotes` | kArena/evaluation/llm_judge_eval.py:408-433 | the counts are those of the replies in each class and add up to the number of votes; the status is error exactly if none could be read |
| `Localization.DistanceTriangle` | kArena/evaluation/localization_eval.py:106-124 | one minus the score obeys the triangle inequality, including the value 0 for an empty union |
| `Localization.EvaluationTriangle` | kArena/evaluation/localization_eval.py:106-141 | so do both scores of whole evaluations |
| `Localization.EvaluationExtremes` | kArena/evaluation/localization_eval.py:106-141 | a score is 0 exactly for patches with nothing in common and 1 exactly for equal nonempty sets, of source files only and of all functions |
| `Localization.OnlyPlacesCount` | kArena/evaluation/localization_eval.py:106-124 | the evaluation depends only on the sets of source files and functions, not on order or repetition, and is symmetric |
| `Localization.FilterCommutes` | kArena/evaluation/localization_eval.py:20-22 | filtering commutes with intersection and union |
| `Localization.SourceNames` | kArena/evaluation/source_filters.py:1-3 | a source file is a name that ends in one of the eleven extensions |
| `Localization.IoURange` | kArena/evaluation/localization_eval.py:112-124 | the ratio lies between 0 and 1, with both extremes characterised |

## Left out

- Network, Docker, git, LLM, Redis and database clients: only their outcomes and atomic effects appear, as events or parameters.
- Database failures, except the final restamping of a webhook row and the insertions that `CrashEvaluation` and `PatchImporter` skip.
- Several batches of agent runs for one configuration at once: each keeps to its own plan, but their plans may overlap.
- A user's first two logins at once, of which one insertion raises.
- Connection keys, session messages, callbacks and closing the oldest conversation when a user has too many: none of them touches a conversation key in a way the lease events do not cover.
- The `get_connections` shortcut, which compares connections with conversation ids: no agreement with the full union is claimed.
- Duplicate developer patches when two passes run at once: the provenance of each is proved, not that there is one.
- Concurrent first deliveries in `store_workflow_information`, which find no row to lock, and the cleanup of old entries, after which a commit starts afresh.
- Clearing the replica cache while configurations are in use.
- A line cut off in the middle of writing the evaluation output, which makes the next run fail to read it.
- Exceptions while image files are removed after an import or a batch; ISO text order of added times is modelled as order of seconds, which agrees within one import.
- Floating-point rounding of the scores, Unicode lower-casing and non-ASCII digits, none of which can turn another word into one of the two verdicts or a file name written by the program into another id.
- JSON, prompts, analyses of patches, and the two patch filters: library or text processing with no property across functions.
- BuildDatabase.SubmitKCacheBuilds, and the other four passes of that module: take one task after the other with no other pass at work; what interleaved passes keep is proved in `BuildPipeline`, from whose events their steps are made.
- ClusterNode.ConversationManager.GetRunningAgentLoops: takes the local and the remote answer at one moment, where the program scans the store in between.
- WebhookQueue.MalformedRowStarvesAll: assumes that no other user writes or removes rows meanwhile, since such a write can repair the row.
- PatchImporter.PatchImporter.ImportPatches: runs the tasks one after the other; every other schedule is covered by the state machine and its `ImportOrderSurvives`, whose steps `ImportSinglePatch` performs.
