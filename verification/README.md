# Verified model of kubedock

kubedock serves the Docker and Podman APIs and runs every container as a pod of a
Kubernetes cluster. This project models the parts of it that carry state or
arithmetic, and proves what they promise - over every input, every run and every
interleaving - or, where the code promises less than it seems to, exactly when it
holds. `dafny verify dfyconfig.toml` checks all of it.

## The modules

- **Streams.** `Framing` is the multiplexed stream format of the Docker Engine API
  v1.41 (operation ContainerAttach, "Stream format") with a printer and a client's
  reader. `IoProxy` is the line-buffering proxy as a class, over a writer that may
  take any part of what it is offered and may fail. `Multiplexer` is the concurrent
  protocol: several proxies, one lock, one writer, delayed flushes. A fine machine
  (one writer call a step) is proved to refine a coarse one (one API call a step),
  and conservation follows for every interleaving.
- **Lifecycle and reclamation.** `Kubernetes` is the cluster - labelled, timestamped
  resources behind calls that may fail - and a clock. `Labels`, `Deploy` and `Delete`
  create and delete resources, and `Ownership` says whose they are over whole runs;
  `Reaper` is the two-tier reaping pass; `Lifecycle` is the state machine of one record
  under every handler; `Channels` are its stop and attach channels.
- **Identity and naming.** `StringId`, `PodName`, `Database` and `Sanitizer` (over
  `Text`): generated ids, pod names and their way back to the record, and the grammar
  of the three sanitizers.
- **Ports and networks.** `Ports` (parsing, mapping), `PortReports` (service ports and
  the listings of both APIs), `Networks` (membership under all API calls).
- **Pods and archives.** `PodAssembly` (containers, volumes and mounts of a pod) and
  `ConcatReader` (replaying sniffed bytes).

Every object the source updates in place is a class here, and its methods are proved
equal to specification functions (`Apply`, `After…`, `Assign`, `Pruned`, …); the
theorems are lemmas about those functions and hold for all runs. Randomness, the
clock, the order in which a Go map is walked, errors and short reads or writes are
nondeterministic or are inputs. Every HTTP handler is one atomic step, except a
restart, which is three; the lock of the multiplexer is modelled as it is.

## What the code does not do

These are results about the code as it is; each is proved, with the exact condition
under which the promise holds and an input for which it fails.

- A frame is read back as it was sent if and only if its payload is below 2^32 bytes
  (`Framing.RoundTrip`).
- The delayed flush can be lost (`IoProxy.FlusherCanGetStuck`): exactly in the runs
  where the last sleeping flush woke up to an empty buffer and no explicit flush has
  found anything since (`Multiplexer.FlushLostExactly`).
- The second reaping tier spares what the first does if and only if the time between
  them plus the clock skew is at most 15 minutes (`Reaper.TiersAreSafeExactly`): with
  one second of skew a pass must finish in 14 minutes and 59 seconds.
- The reaping of an old pod selects its services and configmaps by the name of the
  pod where the short id was meant. It picks them exactly when name and prefix leave
  nothing alphanumeric (`Reaper.ServicesSelectedExactly`), and never without a prefix
  label (`Reaper.DefaultPodKeepsServices`); they are caught by their own age.
- Removing a record can leave its pod behind: exactly when some start left one that
  nothing removed since, and the delete is skipped, because the record is dead, or
  fails, because its error is only logged (`Lifecycle.DeleteLeavesPodExactly`, with
  both inputs in `Lifecycle.DeleteCanLeavePod` and `Lifecycle.DeleteErrorLeavesPod`).
- A removed record stays removed if and only if no restart is under way
  (`Lifecycle.StaysRemovedExactly`; which runs bring it back is
  `Lifecycle.RevivedExactly`, inputs in `Lifecycle.RestartRevivesDeleted`). A revived
  record breaks the integrity of the networks if and only if one of its networks is
  gone by then (`Networks.StepKeepsIntegrity`, input in `Networks.RevivalCanDangle`).
- The accepted signals are none, "kil", "term", "quit" and "int", in any case; every
  other changes nothing (`Lifecycle.KillsExactly`), and these others include KILL, HUP,
  9, 15 and every SIG name (`Lifecycle.UsualSignalsAreIgnored`).
- A pod name leads to another container exactly when that one bears it as its name
  (`Database.PodNameRoundTrip`, input in `Database.NameCanShadow`).
- An error-free port mapping covers every exposed port if and only if no port handed
  out takes the mapping of an unbound exposed port that was passed and does not come
  again (`Ports.MappingCoversExactly`, inputs in `Ports.StaleMappingIsLost`).
- The service of a container depends on no map order if and only if mapped ports
  overlay every port on which host bindings collide
  (`PortReports.ServiceDeterminedExactly`, input in `PortReports.NegatedPortClashes`),
  and the same condition, for ports that are listed, decides whether the listings of
  the two APIs agree (`PortReports.WalksAgreeExactly`).
- Two folders such as "/a/b" and "/ab", or a folder called "/vfiles", get one volume
  name (`PodAssembly.FoldersCollide`, `PodAssembly.FolderTakesFixedName`; exact
  condition in `PodAssembly.VolumeNamesUniqueExactly`).
- The folders a container asks for are mounted if and only if it has a bind, or there
  are none (`PodAssembly.FoldersMountedExactly`): with mounts alone, none of them is
  (input in `PodAssembly.MountOnlyIsIgnored`).
- An archive whose first read returns fewer than five bytes is replayed with bytes
  that were never in it (`ConcatReader.NewReader`: exact if and only if the read filled
  the buffer).

## Model

| member | source | states |
|---|---|---|
| Framing.RoundTrip | internal/util/ioproxy/ioproxy.go:90-104 | Reading what was printed gives back the list of frames, and nothing left over, if and only if every payload is below 2^32 bytes |
| Framing.ParseInverse | internal/util/ioproxy/ioproxy.go:90-104 | The format is uniquely decodable: for any bytes, printing the frames read, followed by the bytes left, gives the bytes back |
| Framing.ParsedAreShort | internal/util/ioproxy/ioproxy.go:91-93 | Any frame that can be read has a payload that fits the 4-byte size |
| Framing.SizeRoundTrip | internal/util/ioproxy/ioproxy.go:93 | The big-endian size of a header reads back as the size modulo 2^32 |
| Framing.HeaderBytes | internal/util/ioproxy/ioproxy.go:91-93 | The eight bytes of a header, each spelled out: the stream, three zeros, the size from its most significant byte on |
| Framing.ParsePrefix | internal/util/ioproxy/ioproxy.go:90-104 | More bytes never change the frames already read |
| Framing.CutStreamReadsSentFrames | internal/util/ioproxy/ioproxy.go:90-104 | From any prefix of the output a client reads only sent frames, in order from the first |
| IoProxy.IoProxy.WriteAll | internal/util/ioproxy/ioproxy.go:63-72 | Terminates and delivers exactly its input to a writer that takes some of it each time; up to the first error a prefix of it |
| IoProxy.IoProxy.WriteFrame | internal/util/ioproxy/ioproxy.go:90-104 | Delivers one encoded frame, or up to the first error a prefix of it |
| IoProxy.IoProxy.Process | internal/util/ioproxy/ioproxy.go:76-87 | Takes the first completed line out of the buffer and prints it as one frame, or reports that there is none |
| IoProxy.IoProxy.ProcessAll | internal/util/ioproxy/ioproxy.go:50-52 | The loop ends, has printed every completed line as a frame, and leaves the unfinished one |
| IoProxy.IoProxy.Write | internal/util/ioproxy/ioproxy.go:47-61 | Buffer, flag and timers become those of the specification, the output grows by its frames (a prefix up to the first error), and the call reports full length and no error whatever the writer did |
| IoProxy.IoProxy.Flush | internal/util/ioproxy/ioproxy.go:107-117 | Prints the buffer as one frame and clears it and the flag; on an empty buffer nothing at all changes |
| IoProxy.LinesKeepEveryByte | internal/util/ioproxy/ioproxy.go:76-87 | The completed lines and the rest, joined, are the bytes scanned |
| IoProxy.LinesAreLines | internal/util/ioproxy/ioproxy.go:76-87 | Every frame of a Write holds exactly one newline, at its end |
| IoProxy.LinesConcat | internal/util/ioproxy/ioproxy.go:47-52 | Scanning part of the data first finds the same lines and the same rest |
| IoProxy.ChunkingDoesNotMatter | internal/util/ioproxy/ioproxy.go:47-61 | However the data is cut into calls, frames and buffer are those of a single call |
| IoProxy.BufferedBytesHaveTimer | internal/util/ioproxy/ioproxy.go:53-59 | A Write that leaves bytes behind can rely on a delayed flush if and only if one slept already or the flag was clear |
| IoProxy.FlusherCanGetStuck | internal/util/ioproxy/ioproxy.go:53-59 | For any two unfinished texts there is a run after which the second waits with the flag set and no timer |
| Multiplexer.AcquireIsCall | internal/util/ioproxy/ioproxy.go:47-61 | Taking the lock is where the call happens, as the coarse machine sees it |
| Multiplexer.InsideIsInvisible | internal/util/ioproxy/ioproxy.go:47-117 | Nothing the holder of the lock does - scanning, each short write, the final bookkeeping - changes what the coarse machine sees |
| Multiplexer.LockMakesCallsAtomic | internal/util/ioproxy/ioproxy.go:47-117 | Every run of the fine machine, for every interleaving and every short write, is the run of its calls in lock order |
| Multiplexer.HolderMakesProgress | internal/util/ioproxy/ioproxy.go:51-72 | The holder of the lock is never stuck and every step brings it closer to releasing the lock |
| Multiplexer.CallConserves | internal/util/ioproxy/ioproxy.go:47-117 | What a call emits and what it leaves buffered is what it found buffered and was given; other streams get nothing |
| Multiplexer.CallEmitsLines | internal/util/ioproxy/ioproxy.go:76-117 | No call emits an empty frame, and the frames of Write are lines |
| Multiplexer.CallSettles | internal/util/ioproxy/ioproxy.go:47-117 | Between calls the buffer holds no newline and a non-empty buffer has its flag set |
| Multiplexer.RunSettles | internal/util/ioproxy/ioproxy.go:47-117 | That holds after every run of calls |
| Multiplexer.RunConserves | internal/util/ioproxy/ioproxy.go:47-117 | Over every run the frames of a stream, then its buffer, are the bytes written to it: nothing lost, duplicated or reordered |
| Multiplexer.RunPrintsLog | internal/util/ioproxy/ioproxy.go:47-117 | Over every run the shared output grows by whole frames |
| Multiplexer.SilentAfterFlush | internal/util/ioproxy/ioproxy.go:107-117 | Once a proxy is flushed and nothing more is written to it, no flush of it, explicit or late, prints anything |
| Multiplexer.FlushLostExactly | internal/util/ioproxy/ioproxy.go:53-59 | For every interleaving of all proxies, one ends with bytes that no delayed flush will come for if and only if it holds some, its last sleeping flush woke up to an empty buffer, and no explicit flush of it has found anything since |
| Multiplexer.FlushedStreamIsRead | internal/backend/exec.go:40-50 | At the end of an exec, for every interleaving, a client has read from a flushed stream exactly the bytes written to it |
| Multiplexer.ModestLogIsShort | internal/util/ioproxy/ioproxy.go:93 | Payloads can only overflow the size when 2^32 bytes or more are written to one proxy |
| Multiplexer.ClientReadsWhatWasWritten | internal/backend/exec.go:40-50 | For every interleaving and every short write, when the lock is free the output is the frames of the calls, each stream and buffer hold what was written to it, and a client reads just that if and only if no payload overflows |
| Multiplexer.ClientNeverReadsTornFrame | internal/backend/exec.go:40-50 | At any other moment, even in the middle of a header, a client has read only whole frames of the calls so far, in order |
| Multiplexer.ErrorsTearNothing | internal/util/ioproxy/ioproxy.go:63-104 | For every interleaving and whatever errors the writer reports, in the middle of a header or a payload: what arrived before the first error is a prefix of the whole frames of the calls, a client reads only these, in order, and the proxies go on as without errors |
| Multiplexer.ErrorsCutTheStream | internal/util/ioproxy/ioproxy.go:47-117 | The same for runs of whole calls, as the class prints them |
| StringId.GenerateRandomID | internal/util/stringid/stringid.go:40-55 | Returns the first draw that is an identifier: 64 hexadecimal digits, a letter among the first twelve |
| StringId.ShortReadsAsNumber | internal/util/stringid/stringid.go:47-52 | A short id parses as a number if and only if it has no letter: twelve digits always fit |
| StringId.ShortOfHex | internal/util/stringid/stringid.go:21-37 | The short form of an id is its first twelve digits and looks like a short id |
| StringId.ShortAfterColon | internal/util/stringid/stringid.go:29-37 | Of a text with a colon the short form is that of what follows the first one |
| StringId.EncodingIsInjective | internal/util/stringid/stringid.go:46 | Different random bytes make different ids |
| StringId.EncodingsExactly | internal/util/stringid/stringid.go:46 | The texts of an even number of hexadecimal digits are exactly the encodings of bytes: every id of that form can be drawn |
| StringId.SignsRead | internal/util/stringid/stringid.go:50 | Digits read as their number up to the largest 64-bit integer, the same with a plus, negated with a minus |
| PodName.PodNameIsHostLabel | internal/model/types/container.go:238-257 | For any name and prefix a pod name has at most 45 characters, is a lower-case host label (section 2.1 of RFC 1123), and ends in the short id |
| PodName.PodNameParts | internal/model/types/container.go:238-257 | A pod name is readable text that starts alphanumeric and ends in a hyphen, or nothing, followed by the whole short id: no pass reaches into the id |
| PodName.NameIsShown | internal/model/types/container.go:238-257 | For a name of letters, digits, single hyphens and underscores that fits with its prefix into 32 characters, the pod name is prefix, name and short id joined by hyphens, in lower case, underscores as hyphens |
| PodName.PodNamesDistinct | internal/model/types/container.go:238-257 | Equal pod names have equal short ids, whatever the names and prefixes |
| PodName.BareNameExactly | internal/model/types/container.go:238-257 | A pod name is the bare short id if and only if nothing alphanumeric is left of name and prefix |
| PodName.DefaultNameIsNotBare | internal/model/types/container.go:239-244 | Without a prefix label that never happens |
| PodName.PodNameReadsBack | internal/model/database.go:151-158 | A pod name is the bare short id, or is no short id and its last hyphen-separated part is |
| Database.ShortIDFinds | internal/model/database.go:126-147 | A stored record is found by its short id |
| Database.FullIDFinds | internal/model/database.go:126-147 | A stored record is found by its own full id |
| Database.NameFinds | internal/model/database.go:126-147 | A name that is no id and no short id of the table finds the first record of that name |
| Database.NotFoundExactly | internal/model/database.go:126-181 | Nothing is found if and only if no record has the text as id, short id or name - and, looking by name or id, none has its last hyphen-separated part either |
| Database.FirstIsFirst | internal/model/database.go:133-142 | A lookup returns the first record with the key |
| Database.PodNameRoundTrip | internal/model/database.go:126-181 | A pod name leads back to its container if and only if it collapsed to the bare short id or no other record found first bears it as its name |
| Database.NameCanShadow | internal/model/database.go:151-171 | A record named like the pod of another one is found in its place |
| Database.PodNamesIdentify | internal/model/types/container.go:238-257 | Different records never share a pod name |
| Database.InsertMembers | internal/model/database.go:201-209 | Saving replaces the record of that id or adds it, and leaves every other record |
| Database.Database.SaveContainer | internal/model/database.go:201-209 | A record with an id is stored as it is; a new one gets the first generated id and its short form, and only when the random source has none nothing changes; ids and short ids stay valid and distinct |
| Database.Database.DeleteContainer | internal/model/database.go:212-214 | Deleting removes the record of that id and keeps the table valid |
| Sanitizer.ReplaceValueWithPatterns | internal/backend/util.go:30-43 | The loop of passes and cuts, with the default for an empty result |
| Sanitizer.ToKubernetes | internal/backend/util.go:14-28 | The three sanitizers are this loop over their patterns, and equal their specification |
| Sanitizer.CleanIsRemoveAll | internal/backend/util.go:30-43 | The three passes with a cut after each equal the passes with one cut after the first: the later cuts never do anything |
| Sanitizer.SanitizeConforms | internal/backend/util.go:14-43 | For every input the result is of its kind: at most 63 allowed characters, alphanumeric at both ends; and is the default when, for keys and values exactly when, the input has no alphanumeric |
| Sanitizer.SanitizeFixes | internal/backend/util.go:14-43 | A text passes unchanged if and only if it already is of the kind |
| Sanitizer.SanitizeIdempotent | internal/backend/util.go:14-43 | Sanitizing twice is sanitizing once |
| Sanitizer.CleanInvents | internal/backend/util.go:30-43 | Every character of the result was in the input: nothing is put in the place of what is removed |
| Sanitizer.RemovedLeavesNothing | internal/backend/util.go:14-43 | A character outside the kind, between two texts of it, leaves nothing |
| Sanitizer.CleanConforms | internal/backend/util.go:30-43 | Before the default is applied the result is empty if and only if the input has no ASCII alphanumeric, for all three kinds |
| Labels.GetLabels | internal/backend/deploy.go:361-388 | Whatever the template, default and user labels, the three labels the selectors go by have the values of this instance and container; every other label comes from a user label, sanitized, or else from the template or defaults |
| Deploy.GetContainerStatus | internal/backend/deploy.go:426-457 | The loop returns the specified verdict of the look (what that means is `Deploy.StatusExactly`) |
| Deploy.StatusExactly | internal/backend/deploy.go:426-457 | From what the look shows: completed, running or failed exactly as the first status of "main" that completed, crashed, was restarted, lacks its image or runs says, in that order; failed also when there is none and the phase failed, or the look did; pending exactly otherwise; an error exactly with failed |
| Deploy.CrashIsFailure | internal/backend/deploy.go:440-442 | A main container that ended with a non-zero exit code and never completed has failed |
| Deploy.StatusAgrees | internal/backend/deploy.go:426-457 | An error comes with DeployFailed and with no other state |
| Deploy.WaitReadyState | internal/backend/deploy.go:414-423 | Polls at most `wait` times; without an error the first look that is not pending showed the container running or completed, as reported; an error exactly when that look failed or there is none |
| Deploy.CreateEach | internal/backend/deploy.go:282-290 | Creates resources up to the first error, as the calls show; all that appears is among those asked for and carries the labels, and nothing disappears |
| Deploy.FinishPod | internal/backend/deploy.go:164-193 | From the pod on: an error exactly when a step failed, the container never got ready, or a service was refused - but not, for a pod that was there already, because it exists |
| Deploy.StartPod | internal/backend/deploy.go:64-193 | The pod is in place unless the state is DeployFailed, also when only the services failed; an error exactly when a step failed, the container never got ready or a creation was refused, existing pods (and with them existing services) aside; without one the first telling look showed the state reported, and a new pod has its configmaps and services; nothing disappears |
| Deploy.StartContainer | internal/backend/deploy.go:48-62 | On DeployFailed the last call made to the cluster is the deletion of that pod, which leaves none unless it fails; otherwise the pod is in place; an error exactly as in the start itself, and without one some look showed the state; nothing else disappears, and all that appears carries the labels of the container |
| Lifecycle.BackendStart | internal/server/routes/common/util.go:14-18 | Every start on a cluster is one of the outcomes the life of a record knows, its pod left if and only if it is in the cluster at the end |
| Delete.DeleteMatching | internal/backend/delete.go:195-243 | Lists its kind and then deletes only what the selector picks in it; an error exactly when one of these calls failed, and without one all of it is gone |
| Delete.DeleteSelected | internal/backend/delete.go:37-76 | The calls made are a list and deletions of services, then of configmaps, then of pods, whatever failed before; a kind for which no call failed is deleted completely; an error exactly when some call failed |
| Delete.DeleteContainer | internal/backend/delete.go:58-76 | The same for what carries the short id, and nothing else goes; without a failed call exactly that is gone |
| Delete.DeleteWithKubedockID | internal/backend/delete.go:37-55 | The same for the resources of one kubedock instance |
| Delete.ContainerSelectorIsExact | internal/backend/delete.go:58-76 | On resources labelled by their origin, the selector removes exactly those made for that container |
| Delete.InstanceSelectorIsExact | internal/backend/delete.go:37-55 | On resources labelled by their origin, the selector removes exactly those of that instance |
| Ownership.RunIsFaithful | internal/backend/deploy.go:361-388 | Over every run of starts of any containers and instances, deletions, and resources made by others, the labels of a resource tell by and for whom it was made |
| Ownership.DeleteRemovesOwned | internal/backend/delete.go:58-76 | After any such run an error-free delete removes exactly what was made for that container |
| Ownership.RunKeepsPodsNamed | internal/backend/deploy.go:71 | Over every such run each managed pod is labelled with the short id its name ends in, as the reaper assumes |
| Reaper.IsOlderThan | internal/backend/delete.go:184-191 | Never true for a resource being deleted; otherwise right for a moment between call and return |
| Reaper.DeleteKindOlderThan | internal/backend/delete.go:95-180 | Lists its kind and deletes only reapable resources; without error none of that kind is left that was old at the start, and with one the last call made failed |
| Reaper.DeleteOlderThan | internal/backend/delete.go:80-91 | The four parts together delete only reapable resources; without error no managed resource is left that was old at the start, and with one the last call made failed |
| Reaper.DeletePod | internal/backend/delete.go:105-113 | The services and configmaps labelled with the pod's name are each attempted, whatever comes of it, then the pod is deleted, as the calls show; nothing else goes, and the error is that of the last call |
| Reaper.NameSelectsExactly | internal/backend/delete.go:105-110 | The selector by pod name picks the services and configmaps of the pod's own container if and only if the name is the bare short id |
| Reaper.ServicesSelectedExactly | internal/backend/delete.go:105-110 | That is, if and only if name and prefix leave nothing alphanumeric |
| Reaper.OldPodLeavesOthers | internal/backend/delete.go:102-115 | Otherwise deleting an old pod leaves all services and configmaps of its container, whatever succeeds or fails |
| Reaper.DefaultPodKeepsServices | internal/backend/delete.go:102-115 | For a container without prefix label that is always so |
| Reaper.CleanOne | internal/reaper/container.go:18-28 | The backend delete of the record is issued in full, its error ignored, and then the record removed: the Reap step of its life, whatever that was |
| Reaper.CleanContainers | internal/reaper/container.go:12-31 | Removes only records that were too old, each with its backend delete, which left nothing of it unless one of its calls failed; touches no resource of a stored record that is not too old, whatever failed; without error touches none of any stored record and leaves no record that was too old at the start |
| Reaper.SecondTierSparesYoung | internal/reaper/container.go:36-38 | What the first tier lets stay is out of reach of the second, services and configmaps selected by pod name included |
| Reaper.TiersAreSafeExactly | internal/reaper/container.go:12-38 | Over all clusters and records: an error-free second tier spares every container that passed the first if and only if elapsed time plus skew is at most 15 minutes |
| Reaper.LateTierTakes | internal/reaper/container.go:36-38 | Later than that it takes the service of a stored container that had just passed the first tier |
| Reaper.CleanContainersKubernetes | internal/reaper/container.go:36-38 | The second tier takes no resource that is not reapable 15 minutes after the first tier's age; unless its last call failed, it leaves none made by kubedock that was that old at the start |
| Reaper.Clean | internal/reaper/main.go:75-85 | After any pass, whatever failed and however long it took, every stored record that is not too old has all its resources; after one that removed all it meant to, no record that was too old at the start is stored, and if it took at most 15 minutes less the skew, every stored record has all its resources; what was removed had its backend delete; and the second tier ran: unless one of its calls failed, nothing made by kubedock, for whatever record or instance, is left that was 15 minutes too old at the start |
| Lifecycle.StepIsGood | internal/server/routes/common/containers.go:31-176 | Each handler and the reaper keep: not running and completed, not running while stopped or killed, stopped or killed only after a backend delete since the last successful start |
| Lifecycle.ReachableIsGood | internal/server/routes/common/util.go:14-65 | That holds in every state reachable by any sequence of steps, restarts interleaved |
| Lifecycle.FlagsMeanExactly | internal/server/routes/common/util.go:36-65 | In every reachable state, for each of running, completed, failed, stopped and killed: the flag is set if and only if some step of the run set it - a start that came up running, one that completed or a refresh that saw completion, a refresh that saw an error, a stop or restart, an accepted kill - and no step since cleared it |
| Lifecycle.StartIsReported | internal/server/routes/common/util.go:36-42 | After a successful start "running" is reported if and only if the deployment runs, and "exited" if and only if it completed |
| Lifecycle.RemovalIsPrecededByDelete | internal/server/routes/docker/containers.go:209-219 | No record is removed, by a handler or by the reaper (whose code is that step: `Reaper.CleanOne`), without a backend delete after its last successful start |
| Lifecycle.PodIsLeftExactly | internal/backend/deploy.go:48-62 | In every reachable state a pod is in the cluster if and only if some start left one and no later delete, of a handler or of a failed start, removed it |
| Lifecycle.DeleteLeavesPodExactly | internal/server/routes/docker/containers.go:209-219 | In every reachable state the delete handler leaves a pod behind if and only if some start left one that nothing removed since, and the record is dead or the backend delete fails |
| Lifecycle.DeleteCanLeavePod | internal/backend/deploy.go:55-62 | For every failed start that leaves its pod: stop, start, delete removes the record, leaves the pod, and issues no delete |
| Lifecycle.DeleteErrorLeavesPod | internal/server/routes/docker/containers.go:209-219 | For every successful start: a delete whose backend error is logged removes the record and leaves the pod |
| Lifecycle.StaysRemovedExactly | internal/server/routes/common/containers.go:50-92 | A removed record stays removed under all further runs if and only if no restart holds it or waits |
| Lifecycle.RevivedExactly | internal/server/routes/common/containers.go:50-92 | A given run brings a removed record back if and only if one of the restarts that held it saves it without error or one of those that waited starts it |
| Lifecycle.RestartRevivesDeleted | internal/server/routes/common/containers.go:50-92 | A delete while a restart sleeps is undone by its save, one while it waits by its start |
| Lifecycle.KillsExactly | internal/server/routes/common/containers.go:143-169 | A kill marks the container killed if and only if it was or the signal is one of the accepted ones; any other signal changes nothing at all |
| Lifecycle.FourAreAccepted | internal/server/routes/common/containers.go:143-156 | The four names, and no name at all, are accepted |
| Lifecycle.UsualSignalsAreIgnored | internal/server/routes/common/containers.go:143-156 | KILL, HUP, 9, 15 and every signal name of more than four letters change nothing |
| Lifecycle.StateStringAgrees | internal/model/types/container.go:576-590 | In consistent states each word is reported if and only if the flags say so |
| Lifecycle.Container.StartContainer | internal/server/routes/common/util.go:14-43 | Is the start of the specification, flag by flag (what each then means is `Lifecycle.FlagsMeanExactly`); a failed start changes no flag |
| Lifecycle.Container.ContainerStart | internal/server/routes/common/containers.go:24-43 | Is the Start step: starts unless running or completed |
| Lifecycle.Container.ContainerAttach | internal/server/routes/common/containers.go:203-213 | Is the Attach step |
| Lifecycle.Container.ContainerRestartFetch | internal/server/routes/common/containers.go:50-62 | Is the first step of a restart: the record is found, and the handler may sleep |
| Lifecycle.Container.ContainerRestartBegin | internal/server/routes/common/containers.go:64-82 | Is the second step: deletes, signals all channels, marks stopped and saves the record, also one that was removed meanwhile |
| Lifecycle.Container.ContainerRestartEnd | internal/server/routes/common/containers.go:84-91 | Is the last step of a restart |
| Lifecycle.Container.ContainerStop | internal/server/routes/common/containers.go:99-128 | Is the Stop step, and all channels are signalled |
| Lifecycle.Container.ContainerKill | internal/server/routes/common/containers.go:135-179 | Is the Kill step; a signal that is not accepted changes nothing |
| Lifecycle.Container.UpdateContainerStatus | internal/server/routes/common/util.go:47-65 | Is the Refresh step |
| Lifecycle.Container.ContainerDelete | internal/server/routes/libpod/containers.go:154-180 | Is the Delete step, and all channels are signalled |
| Channels.Registry.AddStopChannel | internal/model/types/container.go:489-494 | A fresh channel joins the list, and every registered channel stays unused and listed once or signalled exactly once |
| Channels.Registry.AddAttachChannel | internal/model/types/container.go:507-512 | The same for the attach channels |
| Channels.Registry.SignalStop | internal/model/types/container.go:497-503 | No send hits a full or closed channel and none is closed twice; afterwards the list is empty and each channel of it was signalled and closed exactly once |
| Channels.Registry.SignalDetach | internal/model/types/container.go:515-522 | The same for the attach channels |
| Networks.StepKeepsIntegrity | internal/server/routes/docker/networks.go:95-215 | Every API call keeps: each network of a stored container is stored, the predefined networks exist, ids are unique - except the save of a restart that revives a record, which does so if and only if all its networks are still stored |
| Networks.RunKeepsIntegrity | internal/server/routes/docker/containers.go:77-109 | It holds throughout a run of create, connect, disconnect, delete, prune and revivals if and only if every revived record finds its networks |
| Networks.ReferencedWithoutRevival | internal/server/routes/docker/networks.go:95-215 | In a run without revivals it always holds |
| Networks.RevivalCanDangle | internal/server/routes/common/containers.go:79-89 | Deleting an unused network and then reviving a record that was on it leaves a reference to a network that is gone |
| Networks.InitialAreKnown | internal/server/routes/docker/containers.go:77-107 | A new container is attached to at least one network, and only to stored ones |
| Networks.InitialExactly | internal/server/routes/docker/containers.go:77-107 | A new container is on exactly the networks its mode and endpoints name, on the bridge when they name none, and is refused exactly when one of them is unknown or there is no bridge to fall back on |
| Networks.MembersAfter | internal/server/routes/docker/networks.go:123-190 | After each call a container is on a network if and only if the call attaches this pair, or it was on it before and the call does not detach the pair; it is stored if and only if it was, or is recorded now, and is not removed |
| Networks.MembersOverRun | internal/server/routes/docker/networks.go:95-217 | Over every run a container is on a network if and only if some call put it there, or it was there from the start, and no disconnect or removal has taken it off since |
| Networks.NetworksAfter | internal/server/routes/docker/networks.go:73-118 | After each call a network is stored if and only if it is the one created, or it was and is not dropped: by its deletion or a prune, and only when not predefined and not in use |
| Networks.NetworkIDFinds | internal/model/database.go:265-305 | A network is found by its own id |
| Networks.NetworkNameFinds | internal/model/database.go:265-305 | And by its short id and its name, when no other network has them |
| Networks.NetworkNotFoundExactly | internal/model/database.go:265-305 | Nothing is found exactly when no network has the text as name and none has it as id, or as short id if it looks like one |
| Networks.PrunedMembers | internal/server/routes/docker/networks.go:195-215 | A prune leaves exactly the predefined networks and those with an attached container |
| Networks.PositionInPruned | internal/server/routes/docker/networks.go:202-211 | In the middle of the prune, deleting the next network of the snapshot takes that one out of the changed table and no other |
| Networks.PredefinedAttachmentLasts | internal/server/routes/docker/networks.go:160-190 | Over every run a container on a predefined network stays on it as long as it is stored |
| Networks.Server.constructor | internal/model/database.go:118-122 | The initial state has the three predefined networks and is intact |
| Networks.Server.GetContainersInNetwork | internal/server/routes/docker/networks.go:221-237 | The ids of exactly the containers attached to the network |
| Networks.Server.NetworksCreate | internal/server/routes/docker/networks.go:73-89 | Is the create step and keeps integrity |
| Networks.Server.NetworksDelete | internal/server/routes/docker/networks.go:95-118 | Is the delete step, refused for predefined networks and those in use; an error if and only if nothing changed |
| Networks.Server.NetworksConnect | internal/server/routes/docker/networks.go:123-155 | Is the connect step, which puts exactly the named container on the named network (`Networks.MembersAfter`); an error exactly when network or container is unknown |
| Networks.Server.NetworksDisconnect | internal/server/routes/docker/networks.go:160-190 | Is the disconnect step; an error exactly when network or container is unknown, the network predefined or the container not on it |
| Networks.Server.NetworksPrune | internal/server/routes/docker/networks.go:195-217 | Walking a snapshot while deleting leaves what the specification keeps, and reports the names of the rest in order |
| Ports.PortReadsBack | internal/model/types/container.go:380-393 | A port printed as "80/tcp" or "80" reads back as that port, for every 64-bit integer |
| Ports.DefaultProtocol | internal/model/types/container.go:380-393 | A text without a slash means the same with "/tcp" after it |
| Ports.OnlyTCP | internal/model/types/container.go:389-391 | A text whose part after the slash is not "tcp" is no port |
| Ports.GetTCPPorts | internal/model/types/container.go:362-376 | One port for each readable text, in some order |
| Ports.AssignCovers | internal/backend/util.go:57-84 | With fresh ports handed out, every listed port, repeated or not, ends up bound or mapped |
| Ports.BoundExactly | internal/backend/util.go:61-64 | A new host binding makes its port an explicitly bound one if and only if its local port is positive: an empty or negated one does not |
| Ports.AssignKeepsEarlier | internal/backend/util.go:57-84 | With fresh ports handed out, earlier mappings stay |
| Ports.AssignAddsOnlyNeeded | internal/backend/util.go:57-84 | Each entry is an earlier one, or a new one for a listed port without explicit binding |
| Ports.AssignKeepsSingle | internal/backend/util.go:65-70 | No port is ever mapped twice, fresh ports or not |
| Ports.MappingCoversExactly | internal/backend/util.go:57-84 | An error-free mapping covers every exposed port if and only if no port handed out takes the mapping of an unbound exposed port that was passed and does not come again |
| Ports.FreshLosesNothing | internal/backend/util.go:57-84 | Fresh ports, distinct and not mapped yet, lose nothing |
| Ports.MappingIsExact | internal/backend/util.go:57-84 | After an error-free mapping that lost nothing each exposed port has an explicit binding or exactly one mapping |
| Ports.MappingIsIdempotent | internal/backend/util.go:57-84 | A second mapping changes nothing, in whatever order it sees the ports and whatever it is handed, if and only if the first lost nothing |
| Ports.StaleMappingIsLost | internal/model/types/container.go:292-297 | For any two exposed ports, handing the local port of the first out again for the second loses the first |
| Ports.Container.MapContainerTCPPorts | internal/backend/util.go:57-84 | The loop is the specified assignment, to the exposed ports, of the distinct ports the system was asked for and handed out; complete unless the system failed, which is the only error |
| Ports.Container.AddHostPort | internal/model/types/container.go:300-324 | Binds the parsed source, or the negated port when there is none; an error exactly for unreadable texts, and then nothing changes |
| Ports.Container.MapPort | internal/model/types/container.go:292-297 | Maps one local port |
| PortReports.OrderDoesNotMatterExactly | internal/model/types/container.go:348-358 | Laying bindings over the service ports gives one result in every map order if and only if no two of them claim one service port for different ports |
| PortReports.LaidDetermined | internal/model/types/container.go:348-358 | Without collisions any two orders agree |
| PortReports.GetServicePorts | internal/model/types/container.go:340-359 | Image and exposed ports under their own numbers, under the host bindings, under the mapped ports |
| PortReports.ServiceDeterminedExactly | internal/model/types/container.go:340-359 | The service depends on no map order if and only if mapped ports do not collide and overlay every port on which host bindings do |
| PortReports.ServiceDetermined | internal/model/types/container.go:340-359 | In particular, without any collision |
| PortReports.DecidedExactly | internal/model/types/container.go:300-324 | With positive mapped ports, as the system hands them out, a port is undecided if and only if it is not mapped, is bound for another port, and is itself exposed without a local port |
| PortReports.NegatedPortClashes | internal/model/types/container.go:300-324 | Two host bindings that clash so, for any positive port |
| PortReports.GetAvailablePorts | internal/server/routes/docker/containers.go:413-433 | Exactly the bindings with a non-negative source are listed, inverted: those of the container when it is forwarded to, else those of its service |
| PortReports.GetContainerPorts | internal/server/routes/docker/containers.go:384-409 | With a host address each reachable pair is listed exactly once under that address and nothing else is; without one the list is empty |
| PortReports.ForwardedExactly | internal/server/routes/docker/containers.go:426-428 | With forwarding, the Docker API shows a local port as public for a container port if and only if a host binding or a mapped port of the container says so |
| PortReports.ServedPorts | internal/server/routes/docker/containers.go:429-431 | Without it, every mapped port is listed for its container port and every exposed port is listed, for itself when nothing else claims it |
| PortReports.DockerEntryExactly | internal/server/routes/docker/containers.go:391-407 | A pair is available if and only if an entry of the Docker API names the container port as private and the local port as public |
| PortReports.LibpodEntryExactly | internal/server/routes/libpod/containers.go:343-365 | And if and only if one of the Libpod API names the local port as the host's |
| PortReports.ListAll | internal/server/routes/libpod/containers.go:343-365 | Whatever the order of the walk, each pair is listed exactly once however often a local port is repeated |
| PortReports.ListOne | internal/server/routes/docker/containers.go:391-407 | Adds the local ports of one container port, each once however often it is repeated |
| PortReports.WalksAgreeExactly | internal/server/routes/docker/containers.go:413-433 | All walks over a container's ports make the same pairs available, in whatever map order, if and only if the container is forwarded to or every non-negative service port is decided |
| PortReports.ReadSameExactly | internal/server/routes/libpod/containers.go:343-365 | Two listings read the same, pair by pair and equally often, if and only if the same pairs were available to them |
| PortReports.ListingsAgree | internal/server/routes/libpod/containers.go:343-389 | After walks of their own, both APIs list the same pairs of a container, equally often, when it is forwarded to or no unmapped host port clashes |
| PortReports.GetNetworkSettingsPorts | internal/server/routes/docker/containers.go:345-367 | Each container port has its own key, which reads back as that port, with its local ports listed once each; no port overwrites another |
| PortReports.PortKeyReadsBack | internal/server/routes/docker/containers.go:364 | The key of a container port ends in "/tcp" and reads back as that port |
| PodAssembly.AssembledShape | internal/backend/deploy.go:113-160 | For every mix of volumes, archives and socket: one setup container exactly when the start waits for it, "main" last, the sidecar first, main's mounts those of the setup container and then the socket's |
| PodAssembly.AssembledMountsAreDeclared | internal/backend/deploy.go:508-653 | For every mix each mount of every container the start makes names a volume of the pod |
| PodAssembly.VolumeNamesUniqueExactly | internal/backend/deploy.go:531-553 | The volumes of the pod have different names if and only if the sanitized folders differ from each other, the fixed names in use and the template's volumes |
| PodAssembly.FoldersCollide | internal/backend/deploy.go:531-536 | "/a/b" and "/ab" always get one volume name, for any short names a and b |
| PodAssembly.FolderTakesFixedName | internal/backend/deploy.go:531-553 | A folder called like a fixed volume takes its name |
| PodAssembly.Assemble | internal/backend/deploy.go:139-155 | The calls of a start, in order, give the specified pod: volumes exactly when there is a bind, the sidecar exactly when some target is the docker socket and it is not disabled |
| PodAssembly.GetVolumes | internal/model/types/container.go:398-408 | The source of each target, the last one counting, mounts after binds |
| PodAssembly.VolumesExactly | internal/model/types/container.go:398-408 | A target is asked for if and only if some bind or mount names it, and its source is that of the last one |
| PodAssembly.FolderMountedExactly | internal/model/types/container.go:413-421 | A folder the container asks for is mounted at its target by main, from a volume of its own, if and only if there is a bind |
| PodAssembly.FileMountedExactly | internal/model/types/container.go:426-434 | A target that is no folder is mounted by main from the configmap of the files if and only if there is a bind, it is asked for, its source is a file, and it is not the docker socket |
| PodAssembly.FoldersMountedExactly | internal/model/types/container.go:478-480 | A start mounts every folder the container asks for if and only if there is a bind or no folder |
| PodAssembly.MountOnlyIsIgnored | internal/model/types/container.go:398-422 | A container with one mount of a folder and no bind asks for that folder |
| PodAssembly.Pod.AddSetupInitContainer | internal/backend/deploy.go:508-515 | Finds the setup container or makes one |
| PodAssembly.Pod.AddVolumes | internal/backend/deploy.go:522-568 | Adds volumes and mounts as specified, or reports an error and leaves the pod as it was |
| PodAssembly.Pod.AddPreArchives | internal/backend/deploy.go:573-622 | The same for archived files |
| PodAssembly.Pod.AddDindSidecar | internal/backend/deploy.go:626-653 | Puts the sidecar first and the socket in it and in the container after it |
| ConcatReader.ConcatReader.Read | internal/util/tar/concatreader.go:19-28 | Whatever the stream does, the bytes delivered are the next ones of prefix and stream, and the offset counts them; the stream is read once after the prefix and not before, and its failure is passed on |
| ConcatReader.ConcatReader.ReadMany | internal/util/tar/concatreader.go:19-33 | Over any sequence of reads with any buffers, what was delivered is prefix and stream up to ReadBytes() |
| ConcatReader.NewReader | internal/util/tar/reader.go:23-52 | What is replayed equals the archive if and only if the sniffing read filled its five bytes, and then the compression detected is that of the archive; the stream is read once, and there is no reader exactly when that read failed other than at the end |
| ConcatReader.DetectedExactly | internal/util/tar/tar.go:190-204 | A compression is detected if and only if there are at least three bytes and its mark is at the front: the order of the cases does not matter |
| ConcatReader.FiveBytesTell | internal/util/tar/tar.go:190-204 | Five bytes tell as much as the whole archive |

## Left out

- The Kubernetes client, remote exec and attach, port forwarding, the reverse proxy, image inspection, HTTP and JSON: libraries and I/O. The cluster is a map of labelled, timestamped resources.
- go-memdb internals: tables are scanned in their own order, list and save calls of the database do not fail, and what an index keeps after a record was changed in place is not modelled; renaming a container is therefore left out.
- Liveness of the delayed flush: it does not hold (see above).
- Races between handlers, which take no lock; events and their publication. Each handler is one step, a restart three; `Networks` knows of a restart only that it may save a removed record again.
- A restart whose watch cannot be set up waits for ever on a nil channel; in `Lifecycle` it has no last step.
- Reaper.Clean: assumes that the resources of a record were created no earlier than the skew before it, that short ids differ, and that no one else creates pods labelled as kubedock's (then they are named by kubedock: `Ownership.RunKeepsPodsNamed`).
- StringId.GenerateRandomID: does not model that the loop may draw for ever; the random source is a finite list of draws.
- Database.Database.SaveContainer: assumes that a new short id differs from the stored ones, which the code leaves to chance.
- PodAssembly.Pod.AddVolumes: does not model the sub-paths of mounted files (a hash), the contents of the configmaps, or a container template that has mounts of its own.
- PodAssembly.AssembledShape: assumes that the pod template has no init container named "setup".
- The text of a bind is taken apart already: one without a colon makes the code panic (internal/model/types/container.go:401-402).
- Ports.AssignCovers: assumes fresh ports, which the system guarantees only within one call; the exact condition is `Ports.MappingCoversExactly`.
- PortReports.GetContainerPorts: the two copies of the loop, which differ in the record they append, are one method with the API as a parameter.
- Reaper.DeleteKindOlderThan: the four loops, which differ in the kind and in what they delete with it, are one method with these as parameters; a deleted resource is gone at once.
- Deploy.StartPod: settings, copying of volumes, port mapping and the sidecar's watch are inputs that may report errors; the pod's assembly and the port mapping have modules of their own.
- A start keeping the pod template unchanged: resource requirements are written into maps shared with the template.
- A failed start leaving no configmaps or services: only the pod is deleted.
- Cleaning of execs, DeleteAll (the same body as the other two deletes), archive contents, tar and compression formats, filters, logs, network aliases, readme and flags: peripheral.
