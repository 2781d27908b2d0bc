# libsboxd, verified

libsboxd runs groups of untrusted programs together, each in a sandbox of its own. A daemon
owns several *workers*. A worker takes one request after another; a request is a list of
tasks. Each task goes to a *container*, a process that shares its memory for one task with
the worker, and the container forks a *slave* that becomes the task's program. This project
models that machinery and proves what it is meant to guarantee, for any number of workers,
requests, tasks and ids and any interleaving.

## How it is modelled

**The protocol** (`Protocol.dfy`). One worker with its containers and slaves is a state with
a program counter for each process; `Step` makes one access to something shared. Barriers
(`Barriers.dfy`) keep *arrived*, *released* and *returned* apart, as `pthread_barrier_wait`
and `pthread_barrier_destroy` in IEEE Std 1003.1-2017, System Interfaces, describe them: an
arrival that completes a generation releases everybody, and each participant returns in a
later step of its own. A slave carries the copy of the worker's pipe ends that it got at
fork. `die()` anywhere is the action `Die` (or a step that finds an error), after which
nothing moves; what is proved of runs is proved up to there. A signal may end a slave at any
program counter, a slave exits by itself only from the program it runs or after it reported
an error, and the container kills it only for a reading that is over a limit. The slave
opens its files and adds to its environment step by step. `Origin` and the lists `served`
and `responses` record history and influence nothing.

`ProtocolInvariant.dfy` states the invariant. It derives from the worker's program counter
how far the worker has come with each container (`Stage`), and ties to it the generation of
the container's barrier, who owns the task memory, the error flag, the slave and its pipe
ends, the cgroup controllers and the id. `ContainerPreservation.dfy`,
`StartPreservation.dfy`, `WorkerPreservation.dfy` and `ProtocolPreservation.dfy` prove that
every step keeps it; `ProtocolSafety.dfy`, `Ownership.dfy`, `Loading.dfy`, `Sharing.dfy`,
`ProtocolProgress.dfy` and `ProtocolTermination.dfy` draw the conclusions. `Daemon.dfy` puts
any number of workers around one pool of ids and one set of cgroup directories.

**The objects that are updated in place** are classes with arrays and loops: the barrier
(whose use by the protocol `BarrierUse.dfy` proves to be allowed), the pool of ids
(`IdGetter.dfy`, also as interleaved accesses to the shared memory), the supervision loop
(`Supervision.dfy`, tied to the protocol's steps by `SupervisionSteps.dfy`), the flat shared-memory containers (`PlainContainers.dfy`, pointers are
offsets into the arena), `set_task`'s list copying (`SetTask.dfy`), the descriptor tables
(`Wiring.dfy`), the vectors of containers (`Assignment.dfy`, whose loop is proved to be a
run of the protocol's steps), the recv loops (`Framing.dfy`), and `libsbox::Task` with both
ends of a message (`Messages.dfy` over the value trees of `Json.dfy`). `EndToEnd.dfy` joins
messages and protocol.

**What the environment decides** is a parameter: which requests come, which calls fail, what
the clocks and counters read, how a slave ends, how a stream is cut into chunks, which files
may be opened. Clocks are assumed not to run backwards where a statement says so.

## Where the code and its own description differ

The code is followed in each case.

- The timeline in src/libsboxd.cpp:80-91 lists the slave's preparations before the
  synchronised start. In src/container.cpp:639-660 the slave waits first and prepares
  afterwards, so "started" means forked, not ready.
- src/task_data.h:52 enlarges the environment for the entry that the slave adds, but
  src/container.cpp:148 and 155 admit lists that use the enlarged limits up. `SetTask.ExtraEntryFitsIff`
  says exactly when the entry still fits, `SetTask.AdmittedWithoutRoom` that it need not,
  and `SetTask.DocumentedLimitsLeaveRoom` that it does within the limits of
  include/libsbox.h.

## Model

| member | source | states |
|---|---|---|
| Barriers.GenerationsCountArrivals | src/shared_barrier.cpp:23-28 | However arrivals interleave, if nobody waits twice in one generation, k arrivals finish exactly k / count generations and leave k % count waiting. |
| Barriers.SharedBarrier.constructor | src/shared_barrier.cpp:11-15 | A new barrier is in generation 0 with nobody inside. |
| Barriers.SharedBarrier.Arrive | src/shared_barrier.cpp:23-28 | Arriving records the caller as inside with the current generation as its ticket and does to the object exactly what the abstract arrival does. |
| Barriers.SharedBarrier.Return | src/shared_barrier.cpp:23-28 | One may return only after one's generation is over, and returning changes nobody else's standing. |
| Barriers.SharedBarrier.Reset | src/shared_barrier.cpp:30-33 | Destroy and init are allowed only when everybody has returned; the new count holds from then on. |
| BarrierUse.StepIsUse | src/worker.cpp:144-221 | Every step of the protocol is, to the run-start barrier, an arrival of somebody outside, a return of somebody inside whose generation is over, a reset with nobody inside, or nothing. |
| BarrierUse.Follow | src/shared_barrier.cpp:23-33 | Doing to the object what a step is to the barrier keeps it where the protocol says it is, with the same members inside, and never breaks the object's contract. |
| BarrierUse.FollowRun | src/worker.cpp:130-150 | So does any whole run, over any number of requests. |
| ProtocolPreservation.StepKeepsInv | src/container.cpp:234-288 | Every step of any process keeps the invariant, from every state that has it. |
| ProtocolPreservation.InvariantHolds | src/worker.cpp:130-150 | After any run from the start, over any number of requests, the invariant holds. |
| ProtocolSafety.ResetFindsNobodyInside | src/worker.cpp:144 | Whenever the run-start barrier is reset, all who ever entered it have returned from it, not merely been released. |
| ProtocolSafety.DestroyFindsNobodyInside | src/worker.cpp:246-255 | When temporary containers are dropped, both parties are out of their barriers, the process has exited and its slave is dead. |
| ProtocolSafety.EarlyDeathDooms | src/container.cpp:635-640 | A slave killed before it has cleared the error flag leaves its container doomed: the flag is up and nobody can take it down. |
| ProtocolSafety.DoomedNeverPublishes | src/container.cpp:443-445 | From a state in which a container is doomed, no run whatsoever hands its results back or answers the request. |
| ProtocolSafety.EarlyDeathIsFinal | src/container.cpp:639-640 | If in a reachable state a slave has been killed in, before or just after the run-start barrier, its container is and stays doomed and no response is added in any continuation. |
| Ownership.OwnershipAlternates | src/container.cpp:239-280 | If in a reachable state a process can make a step that touches a container's task memory, it is the worker when the generation of the container's barrier is even, and the container or its slave when it is odd, so they never meet. |
| Ownership.OnlyTouchesMatter | src/container.cpp:175-280 | The list of touching steps is complete: any other step has the same effect whatever is in the task memory, and leaves it alone. |
| Ownership.OnlyTouchesChange | src/container.cpp:175-280 | A step after which a container's task memory differs is on that list. |
| Ownership.TaskStaysPut | src/worker.cpp:209-228 | All through a container's turn, over any run, the limits, names, argv, env and binds of its task stay what the worker wrote, and so do the pipe ends and the alias among its descriptors; a stream that names a file may get one, once. |
| ProtocolSafety.StartGate | src/container.cpp:257-266 | As soon as one slave is past the run-start barrier or one container supervises, all slaves of the request are forked and hold both ends of every pipe that some stream of its tasks names, and no other. |
| ProtocolSafety.PipesAreClosedAfterForks | src/worker.cpp:144-147 | When the worker closes the pipes all slaves have them; it holds exactly both ends of those that the tasks name and keeps none. |
| ProtocolSafety.PipesAreOpenedOnce | src/worker.cpp:271-293 | A pipe is opened for the first task that names it, when neither of its ends is open, and no end stays open between requests. |
| ProtocolSafety.WriteLeaves | src/container.cpp:54-190 | The worker's turn leaves the task of that place in the container's memory, with the reading end for stdin and the writing ends for the others of the pipes they name, descriptor 1 for the alias and nothing for files; blank results; and the error flag up. |
| Loading.ProgramIsEquipped | src/container.cpp:635-677 | A running program is that of the task its container was given for this request, and its streams are what that task names: an opened file for a file name or none, the right end, held since the fork, for a pipe, and stdout for the alias. |
| ProtocolSafety.AssignmentIsInTaskOrder | src/worker.cpp:179-207 | Each task gets a container of its own, permanent exactly if the task needs no IPC and uses the standard binds: the k-th such task the k-th permanent one, every other task a temporary one. |
| ProtocolSafety.PermanentContainersMatchPeak | src/worker.cpp:188-194 | Over any history the permanent containers are as many as the tasks without IPC and with the standard binds in the request that had most of them. |
| Sharing.PermanentHoldsPlain | src/worker.cpp:181-195 | In every reachable state the task in a permanent container needs no IPC and uses the standard binds. |
| Sharing.OnlyPlainTasksShare | src/worker.cpp:181-203 | If a container has had slaves of two requests, then at no time of the run, before, between or after, does it hold a task that needs IPC or does without the standard binds. |
| ProtocolSafety.ResponsesAnswerRequests | src/worker.cpp:224-259 | An idle worker has answered every accepted request in order; entry i is the verdict on a run made for that request, in a container of its own, of that request's task i. A run that was stopped was over that task's limit and is reported with neither exit nor signal; any other run with how its slave ended, and if it exited it was that task's program. The readings are those observed, each in its own field, and each flag says whether one is over its limit. |
| ProtocolSafety.JudgedMakesSense | src/container.cpp:429-441 | Every such verdict is right about the limits, and says why the run was over unless a clock was set back after it was stopped. |
| ProtocolProgress.NoDeadlock | src/worker.cpp:215-228 | In every reachable state of one worker with a request under way some process can step without failing, given an id if it asks for one, unless a container is doomed. |
| ProtocolTermination.StepDescends | src/container.cpp:239-285 | From every reachable state, every step that is neither a failure nor a new request makes a measure over all program counters smaller. |
| ProtocolTermination.RunsAreBounded | src/worker.cpp:142-149 | A run without new requests makes no more steps than the measure loses. |
| ProtocolTermination.RequestsComeToAnEnd | src/worker.cpp:142-149 | Whatever the interleaving, a request of n tasks leads to at most 42n + 9 + 5c steps, c being the containers there were. |
| ProtocolTermination.RequestsAreAnswered | src/worker.cpp:142-149 | When nobody can go on any more and no container is doomed, the worker is idle and the request has its one response, one verdict for each task. |
| Daemon.SystemInvariantHolds | src/daemon.cpp:50-58 | In every run of any number of workers over one pool, each worker keeps its invariant, no id is lost or doubled, and the cgroup directories are exactly those of live controllers. |
| Daemon.WorkersRunTheProtocol | src/daemon.cpp:50-58 | Whatever the other workers do, each worker's state is one its own protocol reaches. |
| Daemon.IdsAreConserved | src/shared_id_getter.cpp:20-36 | Free and held ids together are always exactly the initial segment, each id once. |
| Daemon.IdsAreExclusive | src/daemon.cpp:188-189 | No two containers of any workers hold the same id, and a held id is not free. |
| Daemon.FreeIdsAreClean | src/worker.cpp:246-249 | An id in the free stack has no cgroup directory, no controller and no living slave, although it is put back before the container is waited for. |
| Daemon.CgroupsAreMadeFresh | src/container.cpp:250-251 | A container that makes its cgroup never finds the directory there already. |
| Daemon.PutNeverFindsStackFull | src/worker.cpp:247 | Giving an id back never finds the stack full. |
| Daemon.IdleWorkersHoldPermanentIds | src/worker.cpp:246-256 | Between requests a worker holds the ids of its permanent containers and no others. |
| Daemon.NoWorkerIsStuck | src/worker.cpp:142-149 | In the daemon as a whole a worker with a request under way can make a step without failing, whatever the others have done, unless one of its containers is doomed or it needs an id and none is free. |
| Daemon.PoolIsAStack | src/worker.cpp:190-247 | The free ids are what the calls of get and put of all workers, each with the result it had, make of the fresh atomic stack. |
| IdGetter.SharedIdGetter.constructor | src/shared_id_getter.cpp:11-18 | The stack holds every id of the segment, the lowest on top. |
| IdGetter.SharedIdGetter.Get | src/shared_id_getter.cpp:20-27 | Takes the top id, and fails exactly on the empty stack. |
| IdGetter.SharedIdGetter.Put | src/shared_id_getter.cpp:29-36 | Pushes the id, and fails exactly on the full stack. |
| IdGetter.FreshGetsAscend | src/shared_id_getter.cpp:14-16 | The first k calls of get on a fresh stack return start, start + 1, and so on. |
| IdGetter.GetAndPutAreAtomic | src/shared_id_getter.cpp:20-36 | With any number of processes interleaved at single accesses to head and array, the calls that returned are a run of an atomic stack, which is what the memory holds. |
| TaskModel.PublishIsVerdictIff | src/container.cpp:175-190 | Writing a verdict over old results gives the deserved verdict for every run exactly if the fields a run may leave untouched were blank, which is what set_task's reset is for. |
| TaskModel.WantedIff | src/worker.cpp:271-281 | The pipes of a request are exactly those whose name follows an '@' in some stream of its tasks, but for the alias on stderr. |
| Supervision.WallClockIsFloor | src/container.cpp:471-476 | The wall clock is the elapsed time in microseconds divided by 1000 and rounded down, for any two instants. |
| Supervision.WallClockIsMonotone | src/container.cpp:471-476 | A later instant never reads less. |
| Supervision.StopsMeans | src/container.cpp:400-408 | A tick stops a run exactly if cpuacct shows a whole millisecond of nanoseconds more than the CPU limit, or one of microseconds more than the wall limit has passed since the start. |
| Supervision.Supervisor.KillAll | src/container.cpp:448-465 | Everybody in the box is killed and then waited for, each once and none before it is dead, until nobody is left; the container dies exactly if kill fails with somebody there or one of the waits fails; the timer is off and the alarm handler as before. |
| Supervision.Supervisor.TakeUsage | src/container.cpp:429-441 | All readings are taken over, and a limit flag is written exactly when its limit is set. |
| Supervision.Supervisor.WaitForSlave | src/container.cpp:386-446 | The loop ends at the first event that is the slave's end, a limit exceeded in the kernel's own units, or an interruption without the timer; it publishes the verdict on just that, or the container dies, exactly when the interruption was spurious, the killing failed or the error flag is up. CPU times are nanoseconds over 1000000, the wall clock microseconds over 1000 and memory the larger byte count over 1024, each of its own counter and rounded down. What it publishes over blank results reports the slave's end, or neither exit nor signal if a limit ended the run, has its flags right and, without a clock set back, names a reason; and with a wall limit L and ticks at least d ms apart it is over by event L / d. |
| Supervision.VerdictIsConsistent | src/container.cpp:386-446 | A verdict never has both exited and signaled, each flag says exactly that the reported usage is over a limit that is set, and with clocks that do not run backwards it names a reason. |
| Supervision.ReasonIsKeptIff | src/container.cpp:400-441 | The verdict names a reason for every task that an event stops exactly if no clock reads less in the end than when it stopped the run, but for a wall clock that goes from 0 to -1, the value that means no limit. |
| Supervision.SupervisionIsBounded | src/container.cpp:390-411 | With a wall limit L and ticks at least d ms apart, one of the first L / d + 1 events ends the loop. |
| Supervision.OvershootIsBounded | src/container.cpp:405-408 | When the wall limit stops a run the clock reads more than the limit, and at most one tick gap more. |
| SupervisionSteps.KillMeans | src/container.cpp:400-408 | The protocol stops a run exactly for a reading over a limit that is set; nobody is alive then and no status is taken over. |
| SupervisionSteps.StopStepIff | src/container.cpp:390-425 | At an event the protocol has a step for the container exactly if the loop ends there. |
| SupervisionSteps.Supervise | src/container.cpp:386-446 | While the loop goes on the protocol makes no step; what it publishes is what two steps of the protocol leave in the task memory; and it dies of the error flag exactly if the protocol's check fails. |
| CStrings.DecodeRoundTrip | src/plain_string_vector.h:33-39 | Reading the pointer table of packed strings until null gives each string up to its first NUL, in order, and the strings themselves exactly if none contains a NUL. |
| PlainContainers.PlainString.Set | src/plain_string.h:248-254 | The contents are the string, with a terminator, inside the buffer. |
| PlainContainers.PlainString.Append | src/plain_string.h:257-263 | The string is added behind the old contents, inside the buffer. |
| PlainContainers.PlainString.PushBack | src/plain_string.h:185-189 | One character more, then the terminator. |
| PlainContainers.PlainString.PopBack | src/plain_string.h:192-195 | One character less, then the terminator. |
| PlainContainers.PlainString.Clear | src/plain_string.h:179-182 | Empty, whatever it held. |
| PlainContainers.PlainString.Equals | src/plain_string.h:266-274 | True exactly if the contents are that string. |
| PlainContainers.PlainString.CStringView | src/plain_string.h:151-153 | As a C string the buffer is the contents up to the first NUL, and all of them exactly if they have none. |
| PlainContainers.PlainVector.PushBack | src/plain_vector.h:157-161 | One element more at the end; objects live below size and nowhere else. |
| PlainContainers.PlainVector.EmplaceBack | src/plain_vector.h:165-171 | The same, and the result denotes the new element. |
| PlainContainers.PlainVector.PopBack | src/plain_vector.h:174-180 | The last element is destroyed and gone. |
| PlainContainers.PlainVector.Clear | src/plain_vector.h:146-154 | Every element is destroyed. |
| PlainContainers.PlainStringVector.constructor | src/plain_string_vector.h:17-19 | An empty list whose table is just null. |
| PlainContainers.PlainStringVector.Add | src/plain_string_vector.h:33-39 | The table decodes to the old list and the new string: every earlier pointer keeps its meaning, and nothing is written outside arena and table. |
| PlainContainers.PlainStringVector.Clear | src/plain_string_vector.h:41-45 | The table decodes to no string. |
| PlainContainers.PlainStringVector.Count | src/plain_string_vector.h:25-27 | The number of strings added since the last clear. |
| PlainContainers.PlainStringVector.TableDecodes | src/plain_string_vector.h:21-23 | Any sequence of adds since the last clear is what the table decodes to. |
| SetTask.ListFitsMeansAddsFit | src/container.cpp:131-145 | A list that passes the count and total-length checks can be added string by string, each with its terminator, within the buffers. |
| SetTask.FillStrings | src/container.cpp:131-145 | A list is refused exactly if it fails the checks, and otherwise replaces whatever was there. |
| SetTask.FillBinds | src/container.cpp:163-173 | Binds are refused exactly if they are too many or a path is longer than 4096, and otherwise replace the old ones in order. |
| SetTask.TaskLists.SetLists | src/container.cpp:131-173 | Admitted are exactly the tasks with at most 128 arguments of 4096 characters in all, 129 environment entries of 5120, and 10 binds with paths of at most 4096; their lists replace those of the task before completely. |
| SetTask.ExtraEntryFitsIff | src/container.cpp:672 | The entry added to an admitted environment fits exactly if at most ENVC_MAX entries are there and their lengths leave room for it. |
| SetTask.AdmittedWithoutRoom | src/container.cpp:148 | set_task admits an environment of 129 empty entries, behind which no entry fits. |
| SetTask.DocumentedLimitsLeaveRoom | src/task_data.h:52 | An environment within the documented limits leaves room for an entry of 1024 characters. |
| Wiring.WorkerPipes.GetPipe | src/worker.cpp:271-281 | The first use of a name opens a new pipe on free descriptors, every later use gives the same two ends, and no other descriptor changes. |
| Wiring.WorkerPipes.SetStream | src/container.cpp:66-129 | An empty name is the null device, one with an '@' the reading or writing end of the pipe whose name follows, on stderr with @_stdout for stdout, and any other the file of that name; refused exactly if a file name is too long. |
| Wiring.WorkerPipes.WriteTasks | src/worker.cpp:209-213 | After all tasks are written the open pipes are exactly those that the tasks name, and every stream, early or late, is what its name says in terms of the same pipes. |
| Wiring.StreamsMeetIff | src/worker.cpp:271-281 | Streams named @p and @q, of any tasks and in any direction, are on one pipe exactly if p is q, each on the end for its direction. |
| Wiring.WorkerPipes.ClosePipes | src/worker.cpp:283-293 | Exactly the ends of the pipes are closed, each while it is open. |
| Wiring.SlaveFiles.OpenFiles | src/container.cpp:517-539 | Exactly the streams that name files are opened, on new descriptors and for the right direction; fails exactly if one cannot be opened. |
| Wiring.SlaveFiles.Dup2Fds | src/container.cpp:541-559 | The three copies in order, none for a descriptor of -1, each of what the ones before have left; fails exactly if one copies a descriptor that is not open. |
| Wiring.DupAllMeans | src/container.cpp:541-559 | What that comes to: 0 is what stdin's descriptor was, 1 what stdout's was unless that is 0, 2 what stderr's was if that is above 2, and the new 1 for the alias; nothing else changes. |
| Wiring.SlaveFiles.CloseAllFds | src/container.cpp:561-589 | Exactly the standard streams and the kept descriptors remain. |
| Wiring.WireSlave | src/container.cpp:653-655 | From the forked table to exec: descriptors 0, 1 and 2 denote exactly the null device, the file or the pipe end that the task named, 2 the same as 1 for @_stdout, and the slave keeps no pipe end it is not wired to; fails exactly if a named file cannot be opened. |
| Wiring.PipesAreShared | src/worker.cpp:271-281 | What two slaves of a request have for streams named @p and @q is one pipe exactly if p is q. |
| Assignment.WorkerContainers.PrepareContainers | src/worker.cpp:179-207 | Creates exactly as many containers as needed, with the ids it is given in order; every task gets a container of its own, permanent exactly if it needs no IPC and uses the standard binds; and the loop is a run of the protocol's steps. |
| Assignment.WorkerContainers.GiveBack | src/worker.cpp:246-256 | Every temporary container's id is given back and then that container waited for, before the next one's turn, up to a wait that fails; the permanent containers stay. |
| Assignment.FarewellsAlternate | src/worker.cpp:246-254 | That is each container once, in order, its id immediately before itself. |
| Framing.ReceiveRequest | src/worker.cpp:94-113 | However the stream is cut into chunks, the request is what precedes its first NUL, and recv is called again exactly as long as no NUL has come. |
| Framing.RequestSurvivesIff | src/libsbox.cpp:505-523 | A message sent with a NUL behind it arrives unchanged exactly if it contains none. |
| Framing.ReceiveResponse | src/libsbox.cpp:528-540 | The response is all chunks, each up to its first NUL, despite what earlier chunks left in the buffer. |
| Framing.ResponseSurvivesIff | src/libsbox.cpp:528-540 | The client reads just what was sent exactly if that contains no NUL. |
| Framing.ClientIsIndependentOfCutsIff | src/libsbox.cpp:528-540 | What the client reads is independent of how the stream is cut exactly if in the stream only NULs follow a NUL. |
| Json.RequestRoundTripIff | src/libsbox.cpp:320-351 | A task's parameters, lists of any length included, are what the serialised request says and what the worker reads from it exactly if no string of theirs contains a NUL. |
| Json.ResponseRoundTrip | src/libsbox.cpp:354-383 | All result fields in the ranges of their C++ types, -2147483648 to 2147483647 or the 64-bit ones, cross the response unchanged, each as the member of its name. |
| Json.AllGoodIff | src/libsbox.cpp:469-485 | A value is accepted exactly if each of the thirteen members is there and has its type. |
| Json.AllRead | src/libsbox.cpp:469-485 | When all members have been read over old results, nothing of those is left. |
| Json.FindIsFirst | src/libsbox.cpp:391-394 | Of several members of one name the first is read. |
| Json.RequestMeans | src/libsbox.cpp:417-454 | A value is accepted and becomes the task t exactly if each of its fourteen named members is there with its type and width and says what t holds; a null stream is the empty name, and a string counts up to its first NUL. |
| Json.ResponseMeans | src/libsbox.cpp:469-485 | A value is accepted and becomes the results r exactly if each of its thirteen named members is there with its type and width and says what r holds. |
| Json.VerdictsCross | src/libsbox.cpp:354-485 | Every verdict on readings in the 64-bit range, with a code or signal in the 32-bit range or none, is accepted by the client and read unchanged, and so are blank results. |
| Messages.TaskObject.SerializeRequest | src/libsbox.cpp:320-351 | The object's parameters as a value tree, members and list elements in order. |
| Messages.TaskObject.DeserializeRequest | src/libsbox.cpp:417-454 | Accepts exactly the values that say some task, member by member with its type and width, and then holds that task. |
| Messages.TaskObject.SerializeResponse | src/libsbox.cpp:354-383 | The object's results as a value tree. |
| Messages.TaskObject.DeserializeResponse | src/libsbox.cpp:469-485 | Accepts exactly the values that say some results, and then holds those; otherwise exactly the results before the first bad member have been overwritten. |
| Messages.SendTask | src/libsbox.cpp:320-454 | From one object through a request into another, a task's parameters arrive unchanged exactly if none of their strings contains a NUL. |
| Messages.SendResults | src/libsbox.cpp:354-485 | From one object through a response into another, the results arrive unchanged, whatever that held before. |
| Messages.WriteRequest | src/libsbox.cpp:494-505 | The request document lists the tasks in order. |
| Messages.ReadRequest | src/worker.cpp:170-174 | Entry i of a validated request becomes the parameters of task i, each in an object of its own holding what the entry says. |
| Messages.WriteResponse | src/worker.cpp:230-241 | The response document lists the tasks' results in order. |
| Messages.ReadResponse | src/libsbox.cpp:562-577 | A remote error is passed on; otherwise there is no error exactly if there are as many well-typed entries as tasks, and then task i holds what entry i says; if an entry is refused, the tasks before it hold theirs, that one what precedes the bad member, and the others what they held. |
| Messages.WriteError | src/worker.cpp:132-139 | The answer to a request that is refused. |
| Messages.ErrorArrives | src/libsbox.cpp:562-564 | The client is told just that message, up to its first NUL. |
| EndToEnd.RequestsArrive | src/libsbox.cpp:493-505 | The worker makes of a client's request document the client's tasks, in order. |
| EndToEnd.ClientsGetVerdicts | src/worker.cpp:130-150 | What a client reads as the result of its task i is the verdict on a run, made for its request, of that very task: of a stopped run neither exit nor signal, of any other how its slave ended, with the readings that were observed; it is right about that task's limits and, unless a clock was set back, names a reason. Nothing is assumed of the results but that the readings fit their fields. |

## Left out

- Kernel effects of mounts, chroot, rlimits, credentials, namespaces and cgroup files: ids, cgroup
  directories and living processes are sets and flags that steps change.
- src/bind.cpp, `prepare_root` and `cleanup_root`: file system plumbing whose results the kernel
  decides. The unsynchronised read of `use_standard_binds` at src/container.cpp:351 happens there,
  before the first handover, and is not among the accesses that the ownership statements speak of.
- JSON text and schema validation: the library that prints, parses and validates is not part of
  this model, which stops at value trees and takes from the response schema that a document
  without an error message has an array of tasks.
- Sockets, logging, configuration, start-up and the pid file; `accept`, `recv` and the chunks they
  bring are inputs.
- Signal delivery: a timer tick and the end of a slave are events that may come at any time, and a
  `die` in a SIGCHLD handler is the step `Die`. `start_timer` (src/signals.cpp:123-129) is taken
  to tick, for which its interval must be 1 to 999 ms.
- The PATH lookup at src/container.cpp:662-674: whether an entry is added, and which, is
  arbitrary; what is stated is when it fits.
- Protocol.Step: the processes of one request are modelled as steps on values and not as methods
  of objects, since they run concurrently; the loops they consist of are modelled in place beside
  it, for one process at a time. `set_task`, `put_results`, `close_pipes` and `kill_all` are one
  step each there, which the ownership statements justify for the task memory.
- Protocol.GiveBack: `tasks_` and `containers_` are emptied in one step when the last temporary
  container has been reaped.
- Messages.TaskObject.DeserializeRequest: sets the parameters when all members have been read,
  where the source sets each as it reads it; a value that is refused half-way ends the worker.
- BarrierUse.FollowRun: is about the run-start barrier; the containers' own barriers are followed
  as values only.
- Supervision.Supervisor.KillAll: processes that are born while the box is being killed are not
  modelled.
- IdGetter.SharedIdGetter.constructor: ids are unbounded integers, so wrap-around of a 32-bit uid
  is not modelled.
- Daemon.SystemInvariantHolds: a call of `get` or `put` is one step there, which
  `IdGetter.GetAndPutAreAtomic` justifies.
- EndToEnd.ClientsGetVerdicts: readings are unbounded integers; the statement is about those that fit
  the 64-bit and 32-bit fields they are stored in.
- `SharedCond`, the getters and setters of `Task`, `Error`, `ContextManager` and the test
  programs: no logic of their own.
