# A verified model of Ganeti Web Manager

Ganeti Web Manager keeps a local copy of the state of Ganeti clusters in a relational database.
Every object row (virtual machine, node, cluster) carries the metadata last fetched from the
server, the job it waits for, and flags that say when to fetch again. This project models that
copy and the code around it, and proves what it keeps over every run.

How the modules fit together:

- `Database` holds the rows with their cascading foreign keys; `RemoteInfo` and `JobReplies` are the
  server's answers. `Polling` is the loop over an object's pending jobs, `Caching` the lazy cache
  (`load_info`, `refresh`, `check_job_status` as methods of a class), `Coherence` what the cached
  copy means. `Lifecycle` and `Requests` turn every request into one step on database, clock and
  server; `Actions` carries the views out imperatively, each in a transaction; `Safety` and `Deletion`
  are the theorems about runs.
- `Jobs` is the life of a single job row. `Timestamps` is the trip of a microsecond timestamp
  through a decimal column and binary64 arithmetic.
- `Tallies`, `Resources`, `Quotas` and `Admission` are the resource sums and the quota checks.
- `RapiClients` and `ClusterForms` are the two dictionaries of the API client cache and the form that
  edits credentials.
- `Nics`, `OwnerTags` and `Syncing` are the edit scripts and the reconciliation with the server;
  `Errors` is the error store; `Caps` classifies software versions; `Decimals` and `Wrappers` are helpers.

The imperative code of the source is imperative here: classes with fields for the cached object,
the job, the client cache, the forms, the error store and the tables, and methods with loops where
the source loops. Each such method is proved equal to a function of the old state, and the
lemmas state what that function achieves.

## What the code does that its comments do not say

The proofs follow the code. These are places where it behaves differently from what one would
expect; each has an exact condition below.

- Clearing a job can delete the row of the object that waits for it, and for a node or a cluster
  everything that depends on it. This happens exactly when the load inside that very request finds
  the object's jobs settled but its refresh ends in an error, for instance when the server cannot
  be reached: then the object in memory no longer waits, the row still does, and deleting the job
  cascades (`Safety.RowsLostExactly`, `Safety.MismatchIffClearLoses`,
  `Deletion.ClearingInSilenceLosesTheMachine`).
- Two successful removals in one poll raise, since the object has no primary key any more, and a
  removal followed by a job without a usable reply counts twice (`Polling.PollRemovals`,
  `Polling.RemovalRepeats`). The request is then rolled back, so the machine keeps its row, and no
  request that loads it gets through while its poll counts two (`Safety.TwoRemovalsRemoveNothing`,
  `Deletion.ArchivedJobBlocksTheRemoval`).
- A removal is also rolled back when the poll ends the pending deletion and the server then fails
  to answer about the removed machine: the error has no key to be stored under, unless it is
  one of the cluster (`Lifecycle.LoadDiesIff`, `Errors.KeyIsImmaterialIff`,
  `Deletion.UnstorableErrorUndoesTheRemoval`).
- A removal seen by a request that goes on to destroy the machine, or to save it with an update forced
  (ganeti_webmgr/virtualmachines/views.py:996), is always rolled back, and one seen while clearing a
  job sometimes (`Safety.RowsLostExactly`). Otherwise clearing, and the plain save of
  ganeti_webmgr/ganeti_web/views/importing.py:68, can insert the removed machine again
  (`Deletion.RevivesExactly`, `Deletion.ClearingRevivesTheMachine`).
- That plain save can insert a machine that waits for a job of the removed one, so that job and object
  no longer point at each other (`Requests.SaveKeepsInvIff`, `Deletion.PlainSaveBreaksThePairing`).
- A machine inserted again carries the stamp of its last fetch on the metadata before it, and is
  served as fresh (`Lifecycle.RemovedCoherentIff`, `Deletion.RevivedMachineIsMisdated`).
- A finished creation forgets the link to its template before looking the template up by that
  link, so the template is never deleted (`Polling.CreationDeletesNothing`).
- A refresh raises when a dated object is answered without a date, and when it saves a machine with an
  owner tag that names no owner (`Coherence.RefetchRaisesIff`).
- The memory quota is not enforced on starts under a custom quota of zeros, and a processor
  quota of zero is never enforced there (`Admission.RamEnforcedIff`, `Admission.CpusEnforcedIff`).
- The client cache evicts a client before it knows that a new one can be built
  (`RapiClients.LookupKeepsLinkedIff`, `ClusterForms.NonePasswordDrifts`), and the cluster hash is
  ambiguous for every digest (`RapiClients.HashIsAmbiguous`). After a failed constructor the cluster's
  hash leads nowhere until another cluster's client is filed under it (`ClusterForms.DriftSticks`).
- Two quota rows for one cluster and user, which the schema allows, make setting a quota raise, and
  the bulk query differ from the single one unless the first and last row agree
  (`Quotas.QuotaTable.GetQuotas`).
- Timestamps are exact below 2^33 seconds and in no whole second after that (`Timestamps.RoundTrip`).
- A job that ended without operations passes as valid, but its row cannot take it: the load dies, every
  time (`Jobs.LoadDiesIff`, `Jobs.SuccessWithoutOperations`).
- The modify check takes the -1 of unknown sizes off totals that never had it, so for a running machine
  none of whose sizes is known it is one too strict (`Admission.ModifyCheckIsExact`).
- A canceled job is polled for ever (`Jobs.PolledIffUndecided`), and an error that returns after it was
  cleared stays hidden, unless its cluster shares it (`Errors.ReturningErrorIsShownIff`).
- A listed host whose name is not in lower case makes the second sync fail, of machines and of nodes,
  with removal and without (`Syncing.SecondSyncFailsIff`).

## Assumptions

- Each request is atomic and works on a row loaded at its start. Its writes are one transaction
  (ganeti_webmgr/ganeti_web/settings/base.py:134-136): an exception that leaves the view takes back all
  of them, so such a request is a step that changes nothing. A refused permission is answered, not
  raised, and counts as a load. In the runs of other modules only requests that commit are steps.
- The server's replies, its acceptance of jobs and tag calls, and the clock are inputs; nothing is
  assumed about them except where a lemma says so. The server itself takes part in no transaction.
  Answers have the keys the code reads. Coherence of the cache, and the conditions for a load to raise
  or err, assume that an answer about an object is the server's present version and that versions
  carry positive mtimes that increase.
- The table model takes filtered updates, cascading deletes of foreign keys, the loss of the
  primary key on deletion, and re-insertion by a save without a row, as the object-relational mapper
  documents them. The database enforces foreign keys and never uses a primary key twice. Loads that the mapper makes while it collects a
  cascade are not modelled: they write to rows that the same delete takes out, and can take along a
  job that removed one of these machines; one that raises undoes the request.
- Job rows are loaded along the way in polls and views (module `Jobs`). Such a load is one of its own;
  where it raises, the request around it is a step that changes nothing. Columns take any string.
- Quotas are about rows whose sizes are written together, so that they are all unknown or none is
  negative (`Admission.WellSized`): stopping a machine with a single size of -1 would raise the totals.
- Reading a double as a moment follows the standard library of the source's language: truncate to
  seconds, multiply the fraction by a million, add a half, truncate; every operation rounds to
  a nearest double (section 4.3.1 of IEEE 754-2008).
- Lower case is that of ASCII letters.
- The digest of the cluster hash is an arbitrary function; where clients are compared the
  hypothesis is that no two credentials ever stored share a hash.

## Model

| member | source | states |
|---|---|---|
| Database.CollectIsLeastClosed | ganeti_webmgr/virtualmachines/models.py:39-84 | What a delete takes along over the cascading keys is the least set containing the seeds that no other row refers into. |
| Database.DeleteKeepsIntegrity | ganeti_webmgr/virtualmachines/models.py:39-84 | No delete leaves a dangling key. |
| Database.DeletingJobs | ganeti_webmgr/virtualmachines/views.py:185-187 | Deleting a machine's jobs takes the machine along exactly when it waits for one of them, and nothing else. |
| Database.SurvivorsReferToNone | ganeti_webmgr/virtualmachines/models.py:39-84 | Key by key, what is left after a delete refers to nothing deleted: no object to its cluster or its last job, no machine to its nodes or template. |
| Polling.EffectiveIsLastInformative | ganeti_webmgr/clusters/models.py:203-216 | A job without a usable reply inherits status and operation of the last usable one, or unknown. |
| Polling.CheckJobsUpdates | ganeti_webmgr/clusters/models.py:192-249 | For any jobs and replies, exactly which attributes the merged updates set and to what; the two waiting flags are reset together, exactly when there are no jobs or the last effective status is success, error or unknown. |
| Polling.OneJobDecides | ganeti_webmgr/clusters/models.py:203-247 | What a poll of one job does, by the words in the reply: a success, an error or an unknown status ends the wait, a canceled or running job changes nothing, only a removal takes rows out and only a creation forgets a template. |
| Polling.PollForgets | ganeti_webmgr/virtualmachines/models.py:214-223 | While no job removes it, the polled row changes in nothing but its template, which goes with the first successful creation. |
| Polling.PollRemovals | ganeti_webmgr/clusters/models.py:232-240 | The object loses its primary key with the first successful removal, and the poll raises exactly when there are two. |
| Polling.RemovalsSeen | ganeti_webmgr/clusters/models.py:226-240 | The poll counts a removal, or two, exactly when one job, or two, are successful removals under the inherited status. |
| Polling.RemovalRepeats | ganeti_webmgr/clusters/models.py:203-216 | A removal followed by a job without a usable reply counts twice. |
| Polling.PollRows | ganeti_webmgr/clusters/models.py:226-249 | Whatever the replies, a poll takes out at most the object and the job that removed it, changes other rows only by dropping template links, and keeps keys and pending flags sound. |
| Polling.CreationDeletesNothing | ganeti_webmgr/virtualmachines/models.py:214-223 | Completing a creation deletes no row, neither the template nor the machine; the machines of that name on that cluster lose the link, and nothing else changes. |
| Caching.CachedClusterObject.CheckJobStatus | ganeti_webmgr/clusters/models.py:192-249 | The loop yields rows, liveness, updates and exception of the poll that the lemmas of Polling characterise. |
| Caching.CachedClusterObject.CompleteJob | ganeti_webmgr/virtualmachines/models.py:187-224 | The updates a finished job asks for, and the rows after recording a creation. |
| Caching.CachedClusterObject.Refresh | ganeti_webmgr/clusters/models.py:120-181 | Rows, memory, error and exception after a refresh, storing the error included, as the function the coherence and safety lemmas are about. |
| Caching.CachedClusterObject.LoadInfo | ganeti_webmgr/clusters/models.py:88-108 | A row is refreshed when it ignores its cache, was never cached or is older than the refresh interval; otherwise it is served as stored. |
| Caching.FreshCopyIsServed | ganeti_webmgr/clusters/models.py:98-108 | For ten minutes after a fetch the stored copy is served as it is, whatever the server would say, and only missing metadata are an error. |
| Coherence.RefetchCoherent | ganeti_webmgr/clusters/models.py:134-160 | A refresh keeps memory and row coherent with a version the server had, never moves the mtime back, raises at most over an owner tag that names no owner, and without error writes memory through, up to date if the server was asked. |
| Coherence.RefetchRaisesIff | ganeti_webmgr/clusters/models.py:137-175 | Without any promise about mtimes, when a refresh raises: comparing a date with none, saving a machine with an owner tag that names no owner, or storing an error of an object just removed. |
| Coherence.RefetchStoresAnswerIff | ganeti_webmgr/clusters/models.py:147-160 | Without any promise about mtimes, when an error-free refresh really stores the server's answer. |
| Coherence.RefreshStoresColumns | ganeti_webmgr/virtualmachines/models.py:144-183 | Column by column, what a refresh that stores an answer leaves in the row of a machine, a node or a cluster: sizes, status, totals with missing numbers as zero, mtime, stamp and the nodes looked up. |
| Wrappers.SumAdds | ganeti_webmgr/virtualmachines/models.py:156-159 | The disk size is additive over the list of disks, with nothing as zero and one disk as its own size. |
| Lifecycle.LoadDiesIff | ganeti_webmgr/clusters/models.py:130-175 | A load ends in an exception exactly when its poll counts two removals, or one and the server then gives no answer about the removed machine with an error that is not the cluster's, or none and the refresh saves a machine with an owner tag that names no owner. |
| Lifecycle.LoadErrsIff | ganeti_webmgr/clusters/models.py:134-175 | When a load of an expired object that stays ends in an error: no answer to a fetch, or failed tag calls for something new. |
| Lifecycle.LoadSound | ganeti_webmgr/clusters/models.py:88-160 | After any load, one that raises and is rolled back included, the database is sound, only the rows a removal takes are gone, and the object in memory refers to and waits for nothing the database does not have. |
| Lifecycle.LoadWaits | ganeti_webmgr/clusters/models.py:130-181 | The job an object waits for after a load, in memory and in the database, including a fetch that fails after the poll. |
| Lifecycle.LoadFlags | ganeti_webmgr/clusters/models.py:130-181 | Last job, ignored cache, pending deletion, template and name after a load, in memory and in the row, from the words the server used. |
| Lifecycle.StaleCopyIsLookedUp | ganeti_webmgr/clusters/models.py:98-108 | After ten minutes, or if its cache is ignored or was never filled, an object that stays and is not being deleted or deployed is looked up: no answer is an error, an answer stamps memory and row. |
| Lifecycle.LoadMtime | ganeti_webmgr/clusters/models.py:147-160 | No load moves the mtime back, in memory or in the row, whatever the cache holds. |
| Lifecycle.RemovedCoherentIff | ganeti_webmgr/clusters/models.py:137-160 | What a removed object holds in memory is coherent exactly unless the server answered about it with something other than what it holds. |
| Requests.StepKeepsInv | ganeti_webmgr/virtualmachines/models.py:232-289 | Every request (load, job start, destroy, clear, save, deploy, create, delete), whether it commits or is rolled back, keeps keys sound, waiting objects paired with a job that points back and an ignored cache, and caches coherent; a plain save does if it inserts no machine that still waits. |
| Requests.SaveKeepsInvIff | ganeti_webmgr/ganeti_web/views/importing.py:65-69 | A save keeps all that exactly unless it need not update, its load removes the machine, the last job polled is under way, the awaited job is another one than the one that removed it, and the tag calls go through. |
| Requests.DestroyedSound | ganeti_webmgr/virtualmachines/views.py:166-198 | What a destroy that gets through does to the rows: the machine is gone if the server no longer knows it, and otherwise stored again, pending deletion. |
| Requests.ClearedSound | ganeti_webmgr/jobs/views.py:87-96 | What a clear that gets through does to the rows: which row is detached, inserted or lost. |
| Actions.StartJob | ganeti_webmgr/virtualmachines/models.py:245-252 | The rows after recording a job and making the row wait for it; with a new name, a rename. |
| Actions.Destroy | ganeti_webmgr/virtualmachines/views.py:166-198 | The destroy view as statements raises exactly when the modelled step does, and otherwise leaves its rows. |
| Actions.Clear | ganeti_webmgr/jobs/views.py:63-96 | The clear view as statements raises exactly when the modelled step does, and otherwise leaves its rows. |
| Actions.Save | ganeti_webmgr/ganeti_web/views/importing.py:65-69 | Saving the loaded row: it raises with failed tag calls, and without a primary key if an update is forced or the row would refer to a deleted job; otherwise it updates or inserts. |
| Actions.Handle | ganeti_webmgr/ganeti_web/settings/base.py:134-136 | A view in its transaction, rolled back if it raises, leaves exactly the rows of the step the theorems about runs are about. |
| Safety.RunKeepsInv | ganeti_webmgr/clusters/models.py:88-249 | Any run of requests keeps the invariant. |
| Safety.ReachableIsSound | ganeti_webmgr/virtualmachines/models.py:60-84 | In every state reached from the empty database by requests among which no plain save breaks the pairing: no dangling cluster key, an object with a last job ignores its cache and that job exists and points back, and every filled cache that is not misdated holds a version the server had at its stamp, with mtime and columns that say what it says. |
| Safety.NeverServesStale | ganeti_webmgr/clusters/models.py:98-108 | An object loaded without exception or error, and neither being deployed or deleted nor misdated, is served no older than the refresh interval: no version in force before it is newer than what is served. |
| Safety.MtimeNeverDecreases | ganeti_webmgr/clusters/models.py:147-150 | Over any run the stored mtime of a row never decreases. |
| Safety.StartJobWaits | ganeti_webmgr/virtualmachines/models.py:245-252 | Starting a job makes the object wait for a new job of that number, ignore its cache and take the new name of a rename, and changes nothing else. |
| Safety.DeployWaits | ganeti_webmgr/ganeti_web/backend/templates.py:155-169 | A deployment adds a machine of that name and cluster that ignores its cache and waits for its creation, and its job, and changes nothing else. |
| Safety.CreateAdds | ganeti_webmgr/clusters/models.py:469-526 | A row created any other way waits for nothing, does not ignore its cache and has nothing fetched. |
| Safety.DestroyDoomsIff | ganeti_webmgr/virtualmachines/views.py:166-198 | A destroy leaves the machine waiting for its deletion exactly if the load neither dies nor removes it, the server knows it where asked, takes the job, and the tags can be settled. |
| Safety.ClearLiveIff | ganeti_webmgr/jobs/views.py:87-96 | A clear of a job of an object that stays dies exactly if the load does or the object's tags cannot be settled when it is detached; otherwise the job is gone. |
| Safety.RowsLostExactly | ganeti_webmgr/clusters/models.py:226-249 | For every step, from the rows before it and its inputs, exactly when it takes out the row of a machine, node or cluster: a load that sees one removal and does not raise, a plain save after such a load that goes through, a destroy of a machine the server no longer knows, a clear with such a load that does not raise either or whose load settled but erred, or an explicit delete. |
| Safety.MismatchIffClearLoses | ganeti_webmgr/jobs/views.py:87-96 | When a clear loses its object, in terms of the row and the server's answers. |
| Safety.RowSurvives | ganeti_webmgr/clusters/models.py:226-249 | Over any run a row survives exactly when none of the steps takes it out. |
| Safety.TwoRemovalsRemoveNothing | ganeti_webmgr/clusters/models.py:232-240 | Over any run in which the polls of a waiting machine count two removals, the machine keeps its row and goes on waiting, unless a request that does not load it takes it out. |
| Safety.DyingLoadChangesNothing | ganeti_webmgr/ganeti_web/settings/base.py:134-136 | A request whose load raises changes nothing at all. |
| Deletion.DoomedState | ganeti_webmgr/virtualmachines/views.py:185-198 | After a destroy that gets through, the machine waits for the deletion job, ignores its cache, is pending deletion and has no other job. |
| Deletion.DeletionCompletes | ganeti_webmgr/clusters/models.py:232-240 | However long the deletion job takes, and whatever is done to other objects meanwhile, the poll that sees the removal succeed takes out exactly the machine and that job, and the rest of the refresh writes nothing back. |
| Deletion.WaitsThroughRun | ganeti_webmgr/clusters/models.py:226-249 | Polls that find the job under way, and requests on other objects, keep the machine waiting for its one job, pending deletion. |
| Deletion.RevivesExactly | ganeti_webmgr/jobs/views.py:87-96 | Exactly when clearing a job inserts a removed machine again. |
| Deletion.ClearingInSilenceLosesTheMachine | ganeti_webmgr/jobs/views.py:87-96 | A concrete sound database in which clearing a pending job without a reachable server deletes the machine's row. |
| Deletion.ClearingRevivesTheMachine | ganeti_webmgr/jobs/views.py:87-96 | A concrete sound database in which clearing a job inserts the machine its load removed under a new key. |
| Deletion.ArchivedJobBlocksTheRemoval | ganeti_webmgr/clusters/models.py:203-240 | There, if the second job is archived, a visit that sees the removal dies and changes nothing. |
| Deletion.UnstorableErrorUndoesTheRemoval | ganeti_webmgr/utils/models.py:176-186 | There, if the first job is archived and the server does not answer about the machine, a visit that sees one removal changes nothing. |
| Deletion.PlainSaveBreaksThePairing | ganeti_webmgr/ganeti_web/views/importing.py:65-69 | There, a plain save inserts a row that waits for a job of the removed machine. |
| Deletion.RevivedRow | ganeti_webmgr/jobs/views.py:87-96 | The cache and history of the row a clear inserts, and that it is coherent exactly if it is not misdated. |
| Deletion.RevivedMachineIsMisdated | ganeti_webmgr/jobs/views.py:87-96 | A concrete sound database in which clearing a job inserts a machine with metadata the server has replaced and a stamp of now. |
| Jobs.Job.LoadInfo | ganeti_webmgr/jobs/models.py:70-93 | The job row after a load with any reply, whether the server was asked, and whether the save failed. |
| Jobs.PolledUntilDecided | ganeti_webmgr/jobs/models.py:70-126 | Until a success or error that the row takes comes every load polls; metadata and operation are those of the last reply taken, the finish time that of the last one with an end, the status that of the last one taken or 404. |
| Jobs.LatestIsLast | ganeti_webmgr/jobs/models.py:88-93 | The last reply of a kind is the one that no other of the kind follows. |
| Jobs.FrozenOnceDecided | ganeti_webmgr/jobs/models.py:70-126 | From the first reply with an operation that says success or error on, no load asks the server and the row keeps that reply's metadata, status, last operation and end. |
| Jobs.PolledIffUndecided | ganeti_webmgr/jobs/models.py:113-126 | A job is polled again exactly when no reply with an operation ever said success or error. |
| Jobs.NothingKnownIsPolled | ganeti_webmgr/jobs/models.py:70-93 | A row without metadata is polled whatever its flag says. |
| Jobs.CanceledIsPolled | ganeti_webmgr/jobs/models.py:113-126 | A canceled job is polled for ever. |
| Jobs.LoadDiesIff | ganeti_webmgr/jobs/models.py:87-109 | After any loads the next one dies exactly when none was decisive and it brings a valid reply without status or operation. |
| Jobs.SuccessWithoutOperations | ganeti_webmgr/jobs/models.py:95-109 | A success without operations is such a reply. |
| Timestamps.RoundTrip | ganeti_webmgr/utils/fields.py:140-186 | Every microsecond of a second survives the column and back exactly when the second is below 2^33, for every rounding to nearest. |
| Timestamps.ReadIsValid | ganeti_webmgr/utils/fields.py:140-186 | Whatever double is read, the microseconds are those of one second. |
| Timestamps.EndTimestampExact | ganeti_webmgr/jobs/models.py:128-131 | A job's end time is recovered exactly under the same condition. |
| Tallies.GroupedAgrees | ganeti_webmgr/authentication/models.py:82-93 | A single grouping pass gives each key the sum of the query for that key, and has exactly the keys that occur. |
| Resources.UsedResources | ganeti_webmgr/authentication/models.py:43-95 | The all-clusters result has the clusters with counted machines, agrees with the per-cluster result there, and that result is zero elsewhere. |
| Resources.UsedGrows | ganeti_webmgr/authentication/models.py:58-80 | The use on a cluster machine by machine: the disk of every counted machine of the owner, memory and processors while it runs if only running ones are asked for. |
| Resources.NodeCpus | ganeti_webmgr/clusters/views.py:207-221 | Every listed node is in the table; a node's own sum is the table's value plus the processors of foreign machines; the values add up to the cluster's running processors. |
| Resources.NoForeignCpus | ganeti_webmgr/nodes/models.py:132-138 | With machines and their nodes in one cluster there are no foreign processors, so the table equals the node's own sum. |
| Resources.CpusGrow | ganeti_webmgr/nodes/models.py:132-138 | The processors on a node and in a cluster machine by machine: those of running machines whose number is known. |
| Quotas.QuotaTable.GetQuotas | ganeti_webmgr/clusters/models.py:435-467 | For any table the bulk query gives every listed cluster the quota the single query gives exactly where the first and the last of the user's rows carry the same limits. |
| Quotas.OneRowAgrees | ganeti_webmgr/clusters/models.py:398-416 | With one row per cluster and user, which setting keeps, they do. |
| Quotas.QuotaTable.SetQuota | ganeti_webmgr/clusters/models.py:418-433 | The table after setting or removing a quota, or the exception when there are several rows. |
| Quotas.SetRaisesIff | ganeti_webmgr/clusters/models.py:418-433 | Setting raises exactly if the user has two rows on the cluster, and then changes nothing. |
| Quotas.SetThenGet | ganeti_webmgr/clusters/models.py:398-433 | Setting keeps one row per cluster and user; each limit reads back as the data's, or as it was, or zero for a new row; removing restores the defaults; other pairs are untouched. |
| Admission.ModifyForm.CheckQuotaModify | ganeti_webmgr/virtualmachines/forms.py:185-229 | Exactly the entries over quota are dropped and marked. |
| Admission.OverQuotaIff | ganeti_webmgr/virtualmachines/forms.py:197-229 | Entry by entry, which are over quota: memory under either key, processors, disk. |
| Admission.StartCheckIsExact | ganeti_webmgr/virtualmachines/views.py:359-385 | For a stopped machine of any sizes the start check admits exactly the starts after which the totals fit the limits that are looked at. |
| Admission.OthersAreAdmitted | ganeti_webmgr/virtualmachines/views.py:359-385 | One owner's quota on one cluster stands in no other machine's way. |
| Admission.StopGivesBack | ganeti_webmgr/virtualmachines/views.py:359-385 | A shutdown is admitted and gives back what the machine added to the totals. |
| Admission.RunsStayWithin | ganeti_webmgr/virtualmachines/views.py:359-385 | No run of admitted starts, shutdowns and changes takes an owner's running totals on a cluster over a memory quota or a positive processor quota, if the quota has a truthy entry. |
| Admission.ModifyCheckIsExact | ganeti_webmgr/virtualmachines/forms.py:197-229 | For a running machine the check accepts exactly the changes after which both totals fit, with one to spare if none of its sizes is known. |
| Admission.RamEnforcedIff | ganeti_webmgr/virtualmachines/views.py:363-368 | Starts respect a memory limit exactly when the quota has a truthy entry. |
| Admission.CpusEnforcedIff | ganeti_webmgr/virtualmachines/views.py:376-378 | Starts respect a processor limit exactly when it is positive. |
| RapiClients.RapiCache.GetRapi | ganeti_webmgr/utils/__init__.py:41-94 | Both dictionaries and the result after a lookup, on every path. |
| RapiClients.LookupKeepsLinkedIff | ganeti_webmgr/utils/__init__.py:57-94 | A lookup in inverse dictionaries never misses a key, fails on an unknown cluster exactly when no client is found first, and keeps them inverse exactly unless the cluster asked for has a client, neither hash finds one, and the constructor refuses its credentials. |
| RapiClients.DriftedStaysIff | ganeti_webmgr/utils/__init__.py:76-94 | A cluster whose hash leads nowhere stays so exactly unless a lookup files another cluster's client under it. |
| ClusterForms.DriftSticks | ganeti_webmgr/utils/__init__.py:76-94 | Over any run without a reset or such a lookup every lookup of the cluster that misses the cache fails on the missing key. |
| ClusterForms.ResetAndDrop | ganeti_webmgr/utils/__init__.py:97-102 | Clearing the cache ends every drift; a cluster that is gone is found only under a hash that still has a client. |
| RapiClients.OneClientPerCluster | ganeti_webmgr/utils/__init__.py:19-20 | Inverse dictionaries hold exactly as many clients as clusters. |
| RapiClients.PresentHashPresentClient | ganeti_webmgr/clusters/models.py:331-333 | A client returned for a cluster's present hash connects to its present host and port with its present username and password, where empty and None count as none, if no two stored credentials share a hash. |
| RapiClients.HashIsAmbiguous | ganeti_webmgr/clusters/models.py:378-385 | Different credentials with the same hash, for every digest, at the seam of username and password and at that of host and port. |
| ClusterForms.EditClusterForm.Clean | ganeti_webmgr/clusters/forms.py:83-109 | The verdict and the entry stored, on every path. |
| ClusterForms.CleanedPairs | ganeti_webmgr/clusters/forms.py:83-109 | Which entries are accepted, which password is stored, which field is missing otherwise, and that accepted entries leave username and password both empty or both set. |
| ClusterForms.ConstructibleIff | ganeti_webmgr/utils/client.py:177-180 | The constructor takes a username with a password or neither, where the password None counts as none. |
| ClusterForms.RunsKeepTheCacheLinked | ganeti_webmgr/utils/__init__.py:72-102 | Over any run of edits, deletions, lookups and clears in which nobody chooses the password None, entries stay paired, the dictionaries inverse, and every client is filed under the hash of its credentials. |
| ClusterForms.AskingAlwaysSucceeds | ganeti_webmgr/clusters/models.py:368-376 | After any such run, asking with a cluster's present hash returns a client, and one that uses the present host, port, username and password if no hashes collide. |
| ClusterForms.NonePasswordDrifts | ganeti_webmgr/utils/__init__.py:76-94 | A password None is accepted, and the next lookup fails and leaves the cluster with a hash that leads nowhere. |
| Nics.RapiDict.DropUnchangedMacs | ganeti_webmgr/virtualmachines/views.py:877-880 | Exactly the addresses equal to the original ones are dropped, and nothing else. |
| Nics.RapiDict.BuildChanges | ganeti_webmgr/virtualmachines/forms.py:488-512 | The list of edits and removals; no key about interfaces is left, other parameters are kept. |
| Nics.ScriptIsCorrect | ganeti_webmgr/virtualmachines/forms.py:494-509 | Applied to any original interfaces the list produces exactly the requested links and addresses, for any two counts. |
| Nics.ConfirmNics | ganeti_webmgr/virtualmachines/views.py:828-884 | Dropping and building together, from the form data to the server's result: every entry of the list, with an address only where it is new, and the parameters left. |
| OwnerTags.VirtualMachine.Save | ganeti_webmgr/virtualmachines/models.py:93-125 | Local tags, server tags, tag calls and result of a save, on every path. |
| OwnerTags.RemovingForeigns | ganeti_webmgr/virtualmachines/models.py:116-119 | Removing the collected tags one occurrence at a time leaves the others, in order, duplicates included. |
| OwnerTags.SaveKeepsAgreement | ganeti_webmgr/virtualmachines/models.py:116-123 | However a save ends, local and server tags are the same set. |
| OwnerTags.SaveSettles | ganeti_webmgr/virtualmachines/models.py:104-123 | After a successful save on a cluster with a username the tags are the old ones without foreign owner tags plus the owner's if it was missing, with one call for each. |
| OwnerTags.SecondSaveIsSilent | ganeti_webmgr/virtualmachines/models.py:104-123 | After a save that went through, on any cluster and for any owner, a second one makes no call and changes nothing. |
| OwnerTags.RetryCatchesUp | ganeti_webmgr/virtualmachines/models.py:116-123 | A save that failed half way is made good by the next one: tags and server end up as if it had gone through at once. |
| OwnerTags.SaveFailsIff | ganeti_webmgr/virtualmachines/models.py:104-123 | When a save fails over a malformed tag or a refused call, and what it leaves then. |
| OwnerTags.KeptOne | ganeti_webmgr/virtualmachines/models.py:108-115 | Which tag is kept: every one but an owner tag that does not name this owner. |
| OwnerTags.KeptInOrder | ganeti_webmgr/virtualmachines/models.py:116-119 | The tags kept stay in order, duplicates included. |
| OwnerTags.TagNamesOwner | ganeti_webmgr/virtualmachines/models.py:108-121 | The printed owner id parses back to itself. |
| Syncing.Table.Sync | ganeti_webmgr/clusters/models.py:469-526 | When a sync hits a unique constraint, the rows it leaves otherwise, and that names stay unique. |
| Syncing.TakenIff | ganeti_webmgr/clusters/models.py:482-485 | A name is refused exactly if another row of that name would break the uniqueness of machine names in a cluster or of node names. |
| Syncing.SyncLeavesListed | ganeti_webmgr/clusters/models.py:479-523 | With a clean list and removal exactly the listed hosts are left; rows present before stay as they were, except those swept away, which with nodes includes the machines placed on them; new rows are fresh ones of listed names; without removal no row is lost. |
| Syncing.SyncLeavesNothingMissing | ganeti_webmgr/clusters/models.py:532-577 | Afterwards nothing is missing in the database, and with removal nothing on the server. |
| Syncing.MissingOne | ganeti_webmgr/clusters/models.py:543-564 | A listed name is missing in the database exactly if the cluster has no such row. |
| Syncing.MissingInOrder | ganeti_webmgr/clusters/models.py:543-564 | Missing names come in the order listed. |
| Syncing.MissingOnServer | ganeti_webmgr/clusters/models.py:532-541 | Missing on the server are the names of the cluster's rows that are not listed, without machines being deployed. |
| Syncing.LowerAt | ganeti_webmgr/utils/fields.py:58-67 | Letter by letter, what lower case does. |
| Syncing.SyncIsIdempotent | ganeti_webmgr/clusters/models.py:479-523 | A second sync with the same list changes nothing. |
| Syncing.CleanNeverCollides | ganeti_webmgr/clusters/models.py:482-485 | A duplicate-free lower-case list hits no unique constraint, unless another cluster has the node. |
| Syncing.HostsAfter | ganeti_webmgr/clusters/models.py:479-523 | The hosts after a sync with any list, with removal or without. |
| Syncing.SecondSyncFailsIff | ganeti_webmgr/clusters/models.py:482-523 | After a sync that got through, of machines or nodes, with removal or without, the next one fails exactly when some listed name is not in lower case. |
| Errors.ErrorStore.StoreError | ganeti_webmgr/utils/models.py:128-186 | The rows and the row returned after storing an error. |
| Errors.ErrorStore.ClearErrors | ganeti_webmgr/utils/models.py:81-91 | The rows after clearing. |
| Errors.RunsKeepTheStore | ganeti_webmgr/utils/models.py:128-186 | Over any run no error has two rows, every 401 is on a cluster, every row names its object's cluster. |
| Errors.StoreAdds | ganeti_webmgr/utils/models.py:144-186 | When storing adds a row, and the row it adds. |
| Errors.ClearExactly | ganeti_webmgr/utils/models.py:81-123 | Clearing sets the flag on all rows, those of a cluster, or those of one machine or node, and changes nothing else. |
| Errors.ClearingAClusterClearsIt | ganeti_webmgr/utils/models.py:86-112 | Clearing a cluster clears the rows of all its objects and no others. |
| Errors.ChildNotFoundAddsRowIff | ganeti_webmgr/utils/models.py:153-169 | When a 404 of a machine or node adds a row. |
| Errors.ReturningErrorIsShownIff | ganeti_webmgr/utils/models.py:153-186 | When an error stored again is visible, for every code. |
| Errors.KeyIsImmaterialIff | ganeti_webmgr/utils/models.py:144-186 | Storing an error of a machine or node does not depend on its primary key exactly for a 401 and for a 404 its cluster has uncleared. |
| Caps.ClassCountsThresholds | ganeti_webmgr/ganeti_web/caps.py:47-67 | A version's class is the number of thresholds it reaches. |
| Caps.LaterIsNeverLower | ganeti_webmgr/ganeti_web/caps.py:70-100 | A later version never gets a lower class and keeps every capability. |
| Caps.CapabilitiesFrom | ganeti_webmgr/ganeti_web/caps.py:70-100 | From which version on each capability is there. |
| Caps.AtLeastIff | ganeti_webmgr/ganeti_web/caps.py:52-67 | The order of versions is decided by the first difference. |
| Caps.PrintedVersionIsRead | ganeti_webmgr/ganeti_web/caps.py:47-50 | A version printed with dots is read number by number. |
| Decimals.PrintedIsRead | ganeti_webmgr/virtualmachines/models.py:109-121 | A printed number is read back, with or without a sign. |
| Decimals.ReadHasDigits | ganeti_webmgr/virtualmachines/models.py:109 | Only digits are read, and at least one. |

## Left out

- HTTP, JSON, pickling, encryption and the API methods: the server is an arbitrary reply, stored info is a value.
- Views beyond the cited lines, permissions, templates, URLs, wizards, logging, search indexes and migrations: presentation and plumbing.
- Concurrent requests, time zones and daylight saving: requests are atomic and seconds are integers.
- The lookup of node rows by the names in a machine's metadata is an input of a load, so coherence does not speak about the two node keys, nor about owner tags, which a save rewrites.
- No view of this version links a machine to a template; rows of earlier ones may be linked, so a deployment may bring any template along.
- The columns a deployment fills in from its form (sizes and owner) and the grant of permissions: they play no part in caching.
- The unique names of machines and nodes are enforced in syncing only; a rename or deployment that violates them would fail in the database.
- Attributes the poll sets on job objects in memory: they are never saved. A job row's own columns are the subject of the module Jobs.
- The load of a cluster that storing a 401 of one of its objects causes, and the one inside another object's request in general: each is a load of its own.
- A refresh asked for a second time on the same object in memory, and the refreshes at the end of a sync: each is a load of its own, as in Requests.
- Misdated rows (Lifecycle.RemovedCoherentIff), and rows inserted again from them, are exempt from cache coherence and the staleness bound; everything else covers them.
- What follows after a plain save has broken the pairing (Requests.SaveKeepsInvIff): runs end before it.
- Balloon memory in the runs of Admission; the check itself covers both memory keys. Changes of owner and quota during a run are left out too.
- Totals and free space of nodes and clusters, comparison wording, operating system lists and volume parsing: easy members or string rules.
- White space in version numbers and owner ids, which the language's integer conversion would accept.
- Timestamps.RoundTrip: dates before 1970 are not covered, since the conversion of negative doubles truncates the other way.
- Nics.ScriptIsCorrect: the server's handling of a list is modelled as changing by index, appending and dropping the last interface; that the server of the day accepts only one addition or removal is not.
- Construct, ClearRapiCache, ParsePersistentInfo and MayStart are methods tied to their functions and have no row: ClusterForms.ConstructibleIff, RapiClients.PresentHashPresentClient, Coherence.RefreshStoresColumns and Admission.StartCheckIsExact say what the functions mean.
- Deletion.DeletionCompletes: the server may answer anything about the machine itself, but the deletion job must be reported under way until it is reported as a success with the removal as its last operation.
