/** One worker, its containers and their slaves as a system of interleaved
    steps (src/worker.cpp and src/container.cpp). Every process has a program
    counter; whatever two processes share (barriers, task data, descriptor
    tables) is part of the state, and a step is one access to it. */
module Protocol {
  import opened TaskModel
  import opened Barriers

  /** The two parties of a container's own barrier. */
  datatype Side = WorkerSide | ContainerSide

  /** The parties of the worker's run-start barrier. */
  datatype Member = TheWorker | ContainerOf(h: nat) | SlaveOf(h: nat)

  datatype PipeEnd = ReadEnd(pipe: string) | WriteEnd(pipe: string)

  function Ends(pipes: set<string>): set<PipeEnd> {
    (set p | p in pipes :: ReadEnd(p)) + (set p | p in pipes :: WriteEnd(p))
  }

  /** Both ends of every pipe that some task names, and no other end. */
  ghost predicate HoldsNamed(fds: set<PipeEnd>, tasks: seq<Task>) {
    forall p :: (ReadEnd(p) in fds <==> exists i :: 0 <= i < |tasks| && Names(tasks[i], p))
             && (WriteEnd(p) in fds <==> exists i :: 0 <= i < |tasks| && Names(tasks[i], p))
  }

  lemma WantedEndsAreNamed(tasks: seq<Task>)
    ensures HoldsNamed(Ends(Wanted(tasks)), tasks)
  {
    hide Names, Wanted;
    forall p ensures p in Wanted(tasks) <==> exists i :: 0 <= i < |tasks| && Names(tasks[i], p) {
      WantedIff(tasks, p);
    }
  }

  /** Where a result came from: the request and container of the run, the task
      whose program the slave became, how the slave ended, the reading the run was
      stopped for, and what was observed in the end. The program has no such field:
      it is carried along so that a reply can be traced back to a run. */
  datatype Origin = Origin(
    request: nat, container: nat, loaded: Option<Task>, end: Option<Status>, overrun: Option<Overrun>, obs: Observation)

  /** A reading of one of the two clocks that is over its limit. */
  datatype Overrun = CpuTime(ms: int) | WallTime(ms: int)

  predicate Exceeds(t: Task, o: Overrun) {
    match o
    case CpuTime(ms) => t.timeLimitMs != UNLIMITED && ms > t.timeLimitMs
    case WallTime(ms) => t.wallTimeLimitMs != UNLIMITED && ms > t.wallTimeLimitMs
  }

  /** The descriptor of a stream: none yet, a pipe end of the worker's, descriptor 1,
      or what open() gave the slave. */
  datatype StreamFd = Unopened | End(end: PipeEnd) | SameAsStdout | OpenedAs(fd: nat)

  function FdFor(stream: string, write: bool, isStderr: bool): StreamFd {
    match PipeOf(stream)
    case Some(p) =>
      if isStderr && p == STDOUT_ALIAS then SameAsStdout else End(if write then WriteEnd(p) else ReadEnd(p))
    case None => Unopened
  }

  /** What the slave writes of its parameters: the descriptors of the streams that
      name files, and one more entry behind those of the environment. */
  datatype Descriptors = Descriptors(stdin: StreamFd, stdout: StreamFd, stderr: StreamFd, extra: Option<string>)

  function NothingOpened(t: Task): Descriptors {
    Descriptors(FdFor(t.stdin, false, false), FdFor(t.stdout, true, false), FdFor(t.stderr, true, true), None)
  }

  /** The shared memory of one container, see src/task_data.h. */
  datatype TaskData = TaskData(param: Task, open: Descriptors, results: Results, error: bool, origin: Option<Origin>)

  datatype SlavePc =
    | SArrive                  // forked, about to wait on the run-start barrier
    | SWait(ticket: nat)       // inside the run-start barrier
    | SClear                   // about to clear the error flag
    | SOpen(stream: nat)       // open_files: about to open stdin, stdout or stderr
    | SAddPath                 // about to add an entry to the environment
    | SLoad                    // about to become the task's program
    | SExec(loaded: Task)      // running the program of `loaded`
    | SFailed                  // reported an error and is about to exit

  /** `end` is None while the process lives. A process that ends keeps the
      program counter it ended at; `fds` are the pipe ends it got at fork. */
  datatype Slave =
    | NoSlave
    | Slave(pc: SlavePc, end: Option<Status>, fds: set<PipeEnd>, request: nat)

  datatype ContainerPc =
    | CStart                   // prepare()
    | CTaskArrive | CTaskWait(ticket: nat)
    | CMakeCpuacct | CMakeMemory | CFork
    | CRunArrive | CRunWait(ticket: nat)
    | CSupervise | CPublish | CCheck
    | CDropCpuacct | CDropMemory
    | CResultArrive | CResultWait(ticket: nat)
    | CLoop                    // cleanup_root() or leaving the loop
    | CExited

  /** `held` says that the id has not been given back to the id getter; `cpuacct`
      and `memory` that the controller objects exist; `status` and `overrun` are
      what made wait_for_slave kill everything. */
  datatype Container = Container(
    id: int, permanent: bool, held: bool, pc: ContainerPc, bar: Barrier<Side>,
    td: TaskData, slave: Slave, cpuacct: bool, memory: bool, status: Option<Status>, overrun: Option<Overrun>)

  datatype WorkerPc =
    | WIdle                                     // in accept()
    | WPrepare(next: nat)                       // prepare_containers
    | WReset
    | WWrite(i: nat)                            // write_tasks
    | WReleaseArrive(i: nat) | WReleaseWait(i: nat, ticket: nat)
    | WStartArrive | WStartWait(ticket: nat)
    | WClose                                    // close_pipes
    | WCollectArrive(i: nat) | WCollectWait(i: nat, ticket: nat) | WPut(i: nat)
    | WReturnId(j: nat) | WReap(j: nat)

  datatype Reply = Reply(results: Results, origin: Option<Origin>)

  datatype Response = Response(request: nat, tasks: seq<Task>, containers: seq<nat>, replies: seq<Reply>)

  /** `conts` holds every container ever created, so that a handle is an index;
      `permanent`, `temporary` and `containers` are the worker's three vectors
      of handles. `served` and `responses` record the past. */
  datatype Worker = Worker(
    pc: WorkerPc, request: nat, tasks: seq<Task>, replies: seq<Reply>,
    conts: seq<Container>, permanent: seq<nat>, temporary: seq<nat>, containers: seq<nat>,
    run: Barrier<Member>, pipes: set<string>, fds: set<PipeEnd>,
    served: seq<seq<Task>>, responses: seq<Response>, failed: bool)

  const INITIAL := Worker(WIdle, 0, [], [], [], [], [], [], Barrier(1, {}, 0), {}, {}, [], [], false)

  function NewContainer(id: int, permanent: bool): Container {
    Container(id, permanent, true, CStart, Barrier(2, {}, 0),
              TaskData(DEFAULT_TASK, Descriptors(Unopened, Unopened, Unopened, None), DEFAULT_RESULTS, false, None),
              NoSlave, false, false, None, None)
  }

  /** What can happen next. The worker is deterministic but for the request it
      accepts and the id it is given. */
  datatype Action =
    | Die                                          // some call failed
    | Accept(tasks: seq<Task>)
    | Create(id: int)                              // new Container(id_getter_->get(), ...)
    | WorkerMove
    | ContainerMove(h: nat)
    | KillSlave(h: nat, over: Overrun)             // a limit was exceeded
    | PublishResults(h: nat, usage: Observation)
    | SlaveMove(h: nat)
    | SlaveOpens(h: nat, fd: nat)                  // open() of a stream's file, if it has one
    | SlaveAdds(h: nat, extra: Option<string>)     // PATH, if it is set in the worker's environment
    | SlaveError(h: nat)                           // die() in the slave
    | SlaveEnd(h: nat, status: Status)

  // ---------------------------------------------------------------- worker

  function AssignTo(w: Worker, h: nat, next: nat): Worker {
    w.(containers := w.containers + [h], pc := WPrepare(next))
  }

  function Assign(w: Worker): Option<Worker>
    requires w.pc.WPrepare?
  {
    var i := |w.containers|;
    if i >= |w.tasks| then Some(w.(pc := WReset, served := w.served + [w.tasks]))
    else if Eligible(w.tasks[i]) && w.pc.next < |w.permanent| then
      Some(AssignTo(w, w.permanent[w.pc.next], w.pc.next + 1))
    else None
  }

  function CreateFor(w: Worker, id: int): Option<Worker> {
    if !w.pc.WPrepare? || |w.containers| >= |w.tasks| then None
    else
      var h, next := |w.conts|, w.pc.next;
      var eligible := Eligible(w.tasks[|w.containers|]);
      var w1 := w.(conts := w.conts + [NewContainer(id, eligible)]);
      if !eligible then Some(AssignTo(w1.(temporary := w.temporary + [h]), h, next))
      else if next == |w.permanent| then Some(AssignTo(w1.(permanent := w.permanent + [h]), h, next + 1))
      else None
  }

  /** The part of set_task that concerns the protocol: parameters, pipes, blank
      results and the error flag. */
  function SetTask(td: TaskData, t: Task): TaskData {
    TaskData(t, NothingOpened(t), BLANK, true, None)
  }

  function Write(w: Worker, i: nat): Option<Worker> {
    if i >= |w.tasks| then Some(w.(pc := WReleaseArrive(0)))
    else if i >= |w.containers| || w.containers[i] >= |w.conts| then None
    else
      var h := w.containers[i];
      var c := w.conts[h];
      var wanted := PipeNames(w.tasks[i]);
      Some(w.(conts := w.conts[h := c.(td := SetTask(c.td, w.tasks[i]))],
              pipes := w.pipes + wanted, fds := w.fds + Ends(wanted - w.pipes), pc := WWrite(i + 1)))
  }

  /** The worker's half of a wait on container i's own barrier. */
  function Meet(w: Worker, i: nat, then_: WorkerPc): Option<Worker> {
    if i >= |w.containers| || w.containers[i] >= |w.conts| then None
    else
      var h := w.containers[i];
      var c := w.conts[h];
      Some(w.(conts := w.conts[h := c.(bar := c.bar.Arrive(WorkerSide))], pc := then_))
  }

  function TicketAt(w: Worker, i: nat): nat {
    if i < |w.containers| && w.containers[i] < |w.conts| then w.conts[w.containers[i]].bar.gen else 0
  }

  predicate MetAt(w: Worker, i: nat, ticket: nat) {
    i < |w.containers| && w.containers[i] < |w.conts| && w.conts[w.containers[i]].bar.Released(ticket)
  }

  function Put(w: Worker, i: nat): Option<Worker> {
    if i >= |w.containers| || w.containers[i] >= |w.conts| || i >= |w.replies| then None
    else
      var td := w.conts[w.containers[i]].td;
      Some(w.(replies := w.replies[i := Reply(td.results, td.origin)], pc := WCollectArrive(i + 1)))
  }

  function GiveBack(w: Worker, j: nat): Option<Worker> {
    if j >= |w.temporary| then
      Some(w.(temporary := [], containers := [], tasks := [], replies := [], pc := WIdle))
    else if w.temporary[j] >= |w.conts| then None
    else
      var h := w.temporary[j];
      Some(w.(conts := w.conts[h := w.conts[h].(held := false)], pc := WReap(j)))
  }

  /** The worker's next step. None means that it is blocked. */
  function WorkerStep(w: Worker): Option<Worker> {
    match w.pc
    case WIdle => None
    case WPrepare(_) => Assign(w)
    case WReset => Some(w.(run := w.run.Reset(|w.containers| * 2 + 1), pc := WWrite(0)))
    case WWrite(i) => Write(w, i)
    case WReleaseArrive(i) =>
      if i >= |w.containers| then Some(w.(pc := WStartArrive)) else Meet(w, i, WReleaseWait(i, TicketAt(w, i)))
    case WReleaseWait(i, ticket) =>
      if MetAt(w, i, ticket) then Some(w.(pc := WReleaseArrive(i + 1))) else None
    case WStartArrive => Some(w.(run := w.run.Arrive(TheWorker), pc := WStartWait(w.run.gen)))
    case WStartWait(ticket) => if w.run.Released(ticket) then Some(w.(pc := WClose)) else None
    case WClose => Some(w.(pipes := {}, fds := w.fds - Ends(w.pipes), pc := WCollectArrive(0)))
    case WCollectArrive(i) =>
      if i >= |w.tasks| then
        Some(w.(responses := w.responses + [Response(w.request, w.tasks, w.containers, w.replies)], pc := WReturnId(0)))
      else Meet(w, i, WCollectWait(i, TicketAt(w, i)))
    case WCollectWait(i, ticket) => if MetAt(w, i, ticket) then Some(w.(pc := WPut(i))) else None
    case WPut(i) => Put(w, i)
    case WReturnId(j) => GiveBack(w, j)
    case WReap(j) =>
      if j < |w.temporary| && w.temporary[j] < |w.conts| && w.conts[w.temporary[j]].pc == CExited
      then Some(w.(pc := WReturnId(j + 1))) else None
  }

  function AcceptStep(w: Worker, tasks: seq<Task>): Option<Worker> {
    if w.pc != WIdle then None
    else Some(w.(pc := WPrepare(0), request := w.request + 1, tasks := tasks,
                 replies := seq(|tasks|, _ => Reply(DEFAULT_RESULTS, None))))
  }

  // ------------------------------------------------------------- container

  /** The steps that touch only the container's own state. */
  function ContainerLocal(c: Container): Option<Container> {
    match c.pc
    case CStart => Some(c.(pc := CTaskArrive))
    case CTaskArrive => Some(c.(bar := c.bar.Arrive(ContainerSide), pc := CTaskWait(c.bar.gen)))
    case CTaskWait(ticket) => if c.bar.Released(ticket) then Some(c.(pc := CMakeCpuacct)) else None
    case CMakeCpuacct => Some(c.(cpuacct := true, pc := CMakeMemory))
    case CMakeMemory => Some(c.(memory := true, pc := CFork))
    case CSupervise =>
      // waitpid() returned the slave
      if c.slave.Slave? && c.slave.end.Some?
      then Some(c.(status := c.slave.end, overrun := None, pc := CPublish,
                   td := c.td.(results := WithStatus(c.td.results, c.slave.end))))
      else None
    case CDropCpuacct => Some(c.(cpuacct := false, pc := CDropMemory))
    case CDropMemory => Some(c.(memory := false, pc := CResultArrive))
    case CResultArrive => Some(c.(bar := c.bar.Arrive(ContainerSide), pc := CResultWait(c.bar.gen)))
    case CResultWait(ticket) => if c.bar.Released(ticket) then Some(c.(pc := CLoop)) else None
    case CLoop => Some(c.(pc := if c.permanent then CTaskArrive else CExited))
    case _ => None
  }

  /** A tick found a limit exceeded: kill_all leaves no process alive and
      discards the slave's status. */
  function Kill(c: Container, over: Overrun): Option<Container> {
    if c.pc != CSupervise || !c.slave.Slave? || !Exceeds(c.td.param, over) then None
    else
      var end := if c.slave.end.None? then Some(Signaled(9)) else c.slave.end;
      Some(c.(slave := c.slave.(end := end), status := None, overrun := Some(over), pc := CPublish))
  }

  function Loaded(s: Slave): Option<Task> {
    if s.Slave? && s.pc.SExec? then Some(s.pc.loaded) else None
  }

  function Publish(c: Container, h: nat, usage: Observation): Option<Container> {
    if c.pc != CPublish || !c.slave.Slave? then None
    else
      var obs := usage.(status := c.status);
      Some(c.(td := c.td.(results := WithUsage(c.td.results, c.td.param, obs),
                          origin := Some(Origin(c.slave.request, h, Loaded(c.slave), c.slave.end, c.overrun, obs))),
              pc := CCheck))
  }

  /** The last line of wait_for_slave. */
  function Check(c: Container): Option<Container> {
    if c.td.error then None else Some(c.(pc := CDropCpuacct))
  }

  function WithContainer(w: Worker, h: nat, c: Option<Container>): Option<Worker>
    requires h < |w.conts|
  {
    match c case Some(c) => Some(w.(conts := w.conts[h := c])) case None => None
  }

  function Fork(w: Worker, c: Container): Container {
    c.(slave := Slave(SArrive, None, w.fds, w.request), pc := CRunArrive)
  }

  function ContainerStep(w: Worker, h: nat): Option<Worker>
    requires h < |w.conts|
  {
    var c := w.conts[h];
    match c.pc
    case CFork => WithContainer(w, h, Some(Fork(w, c)))
    case CRunArrive =>
      Some(w.(conts := w.conts[h := c.(pc := CRunWait(w.run.gen))], run := w.run.Arrive(ContainerOf(h))))
    case CRunWait(ticket) =>
      if w.run.Released(ticket) then WithContainer(w, h, Some(c.(pc := CSupervise))) else None
    case CCheck => if c.td.error then Some(w.(failed := true)) else WithContainer(w, h, Check(c))
    case _ => WithContainer(w, h, ContainerLocal(c))
  }

  // ----------------------------------------------------------------- slave

  predicate Alive(s: Slave) {
    s.Slave? && s.end.None?
  }

  /** After the barrier: clear the flag, read the task and become its program. */
  function SlaveLocal(c: Container): Option<Container> {
    if !Alive(c.slave) then None
    else
      match c.slave.pc
      case SClear => Some(c.(slave := c.slave.(pc := SOpen(0)), td := c.td.(error := false)))
      case SLoad => Some(c.(slave := c.slave.(pc := SExec(c.td.param))))
      case _ => None
  }

  function Open(fd: StreamFd, at: nat): StreamFd {
    if fd.Unopened? then OpenedAs(at) else fd
  }

  /** open_files, one stream after the other. */
  function OpenNext(c: Container, fd: nat): Option<Container> {
    if !Alive(c.slave) || !c.slave.pc.SOpen? then None
    else
      var o := c.td.open;
      match c.slave.pc.stream
      case 0 => Some(c.(slave := c.slave.(pc := SOpen(1)), td := c.td.(open := o.(stdin := Open(o.stdin, fd)))))
      case 1 => Some(c.(slave := c.slave.(pc := SOpen(2)), td := c.td.(open := o.(stdout := Open(o.stdout, fd)))))
      case _ => Some(c.(slave := c.slave.(pc := SAddPath), td := c.td.(open := o.(stderr := Open(o.stderr, fd)))))
  }

  function AddPath(c: Container, extra: Option<string>): Option<Container> {
    if Alive(c.slave) && c.slave.pc == SAddPath
    then Some(c.(slave := c.slave.(pc := SLoad), td := c.td.(open := c.td.open.(extra := extra)))) else None
  }

  function SlaveStep(w: Worker, h: nat): Option<Worker>
    requires h < |w.conts|
  {
    var c := w.conts[h];
    var s := c.slave;
    if !Alive(s) then None
    else
      match s.pc
      case SArrive =>
        Some(w.(conts := w.conts[h := c.(slave := s.(pc := SWait(w.run.gen)))], run := w.run.Arrive(SlaveOf(h))))
      case SWait(ticket) =>
        if w.run.Released(ticket) then WithContainer(w, h, Some(c.(slave := s.(pc := SClear)))) else None
      case _ => WithContainer(w, h, SlaveLocal(c))
  }

  ghost predicate Prepares(c: Container, c': Container) {
    (exists fd :: OpenNext(c, fd) == Some(c')) || (exists extra :: AddPath(c, extra) == Some(c'))
  }

  /** Between clearing the flag and becoming the program. */
  predicate Preparing(pc: SlavePc) {
    pc.SOpen? || pc == SAddPath || pc == SLoad
  }

  /** die() in the slave: report, then exit. */
  function SlaveFails(c: Container): Option<Container> {
    if Alive(c.slave) && Preparing(c.slave.pc)
    then Some(c.(slave := c.slave.(pc := SFailed), td := c.td.(error := true))) else None
  }

  /** The slave ends: a signal may reach it anywhere, but it exits by itself only
      from the program it runs or after reporting an error. */
  function SlaveEnds(c: Container, status: Status): Option<Container> {
    if Alive(c.slave) && (status.Signaled? || c.slave.pc.SExec? || c.slave.pc.SFailed?)
    then Some(c.(slave := c.slave.(end := Some(status)))) else None
  }

  // ------------------------------------------------------------------ step

  function Step(w: Worker, a: Action): Option<Worker> {
    if w.failed then None
    else
      match a
      case Die => Some(w.(failed := true))
      case Accept(tasks) => AcceptStep(w, tasks)
      case Create(id) => CreateFor(w, id)
      case WorkerMove => WorkerStep(w)
      case ContainerMove(h) => if h < |w.conts| then ContainerStep(w, h) else None
      case KillSlave(h, over) => if h < |w.conts| then WithContainer(w, h, Kill(w.conts[h], over)) else None
      case PublishResults(h, usage) =>
        if h < |w.conts| then WithContainer(w, h, Publish(w.conts[h], h, usage)) else None
      case SlaveMove(h) => if h < |w.conts| then SlaveStep(w, h) else None
      case SlaveOpens(h, fd) => if h < |w.conts| then WithContainer(w, h, OpenNext(w.conts[h], fd)) else None
      case SlaveAdds(h, extra) => if h < |w.conts| then WithContainer(w, h, AddPath(w.conts[h], extra)) else None
      case SlaveError(h) => if h < |w.conts| then WithContainer(w, h, SlaveFails(w.conts[h])) else None
      case SlaveEnd(h, status) => if h < |w.conts| then WithContainer(w, h, SlaveEnds(w.conts[h], status)) else None
  }

  /** The steps of a container or its slave that the environment has a say in. */
  predicate Chooses(c: Container, h: nat, a: Action, c': Container) {
    match a
    case KillSlave(_, over) => Kill(c, over) == Some(c')
    case PublishResults(_, usage) => Publish(c, h, usage) == Some(c')
    case SlaveOpens(_, fd) => OpenNext(c, fd) == Some(c')
    case SlaveAdds(_, extra) => AddPath(c, extra) == Some(c')
    case SlaveError(_) => SlaveFails(c) == Some(c')
    case SlaveEnd(_, status) => SlaveEnds(c, status) == Some(c')
    case _ => false
  }

  /** The state after a whole run, if every step of it was possible. */
  function Run(w: Worker, actions: seq<Action>): Option<Worker> {
    if actions == [] then Some(w)
    else
      var front := Run(w, actions[..|actions| - 1]);
      if front.None? then None else Step(front.value, actions[|actions| - 1])
  }

  ghost predicate Reachable(w: Worker) {
    exists actions :: Run(INITIAL, actions) == Some(w)
  }

  /** Some run leads from one state to the other. */
  ghost predicate Leads(w: Worker, w': Worker) {
    exists actions :: Run(w, actions) == Some(w')
  }
}
