/** The invariant of the worker / container / slave protocol. It ties together
    the generations of the barriers, the error flag, the ownership of the task
    memory, the pipe ends and the ids. */
module ProtocolInvariant {
  import opened TaskModel
  import opened Protocol

  // ------------------------------------------------- one container's state

  /** How far the worker has come with one container in the current request. */
  datatype Stage =
    | Away                       // nothing written yet
    | Filled                     // set_task done
    | Handing(ticket: nat)       // inside the barrier that hands the task over
    | Lent                       // the container has the task memory
    | Fetching(ticket: nat)      // inside the barrier that hands the results back
    | Back                       // the worker has the task memory, results unread
    | Taken                      // put_results done

  function StageAt(pc: WorkerPc, i: nat): Stage {
    match pc
    case WIdle => Away
    case WPrepare(_) => Away
    case WReset => Away
    case WWrite(k) => if i < k then Filled else Away
    case WReleaseArrive(k) => if i < k then Lent else Filled
    case WReleaseWait(k, t) => if i < k then Lent else if i == k then Handing(t) else Filled
    case WStartArrive => Lent
    case WStartWait(_) => Lent
    case WClose => Lent
    case WCollectArrive(k) => if i < k then Taken else Lent
    case WCollectWait(k, t) => if i < k then Taken else if i == k then Fetching(t) else Lent
    case WPut(k) => if i < k then Taken else if i == k then Back else Lent
    case WReturnId(_) => Taken
    case WReap(_) => Taken
  }

  /** What one container has to know about the rest of the system. `started` says
      whether the run-start barrier of this request has been passed. */
  datatype Context = Context(started: bool, runGen: nat, task: Task, fds: set<PipeEnd>, request: nat, h: nat)

  /** No slave, or one that ended after it had left the run-start barrier. */
  predicate Settled(s: Slave) {
    s.NoSlave? || (s.end.Some? && (Preparing(s.pc) || s.pc.SExec?))
  }

  predicate Waiting(c: Container) {
    c.pc == CTaskWait(c.bar.gen) || c.pc == CResultWait(c.bar.gen)
  }

  /** The container's own barrier holds exactly those of the two who wait. */
  predicate BarOk(c: Container, workerWaits: bool) {
    && c.bar.count == 2
    && !(workerWaits && Waiting(c))
    && c.bar.arrived == (if workerWaits then {WorkerSide} else {}) + (if Waiting(c) then {ContainerSide} else {})
  }

  predicate NoController(c: Container) {
    !c.cpuacct && !c.memory
  }

  /** At the top of its loop, or on the way there: an even generation. */
  predicate Ready(c: Container) {
    && c.held && NoController(c) && Settled(c.slave)
    && c.bar.gen % 2 == 0 && (!c.permanent ==> c.bar.gen == 0)
    && match c.pc
       case CStart => true
       case CTaskArrive => true
       case CTaskWait(t) => t == c.bar.gen
       case CLoop => c.permanent
       case CResultWait(t) => c.permanent && t + 1 == c.bar.gen
       case _ => false
  }

  /** A temporary container that has handed its only results back. */
  predicate Retired(c: Container) {
    && !c.permanent && NoController(c) && Settled(c.slave) && c.bar.gen == 2
    && (c.pc == CResultWait(1) || c.pc == CLoop || c.pc == CExited)
  }

  predicate Finished(c: Container) {
    c.bar.gen >= 2 && ((c.permanent && Ready(c)) || Retired(c))
  }

  predicate Fresh(c: Container, task: Task) {
    c.td.param == task && c.td.results == BLANK && c.td.origin == None
  }

  /** The results are the verdict on a run of this very task, in this request and
      this container. Either the run was stopped, for a reading that exceeds the
      task's limit, and then no status is reported; or it was not, and then the
      slave's is, and if that is an exit the slave had become the task's program. */
  predicate Judged(r: Results, origin: Option<Origin>, task: Task, request: nat, h: nat) {
    && origin.Some?
    && var o := origin.value;
    && o.request == request && o.container == h
    && r == Judge(task, o.obs)
    && (o.loaded == None || o.loaded == Some(task))
    && o.end.Some? && o.obs.status == (if o.overrun.Some? then None else o.end)
    && (o.overrun.Some? ==> Exceeds(task, o.overrun.value))
    && (o.obs.status.Some? && o.obs.status.value.Exited? ==> o.loaded == Some(task))
  }

  predicate SlaveHas(s: Slave, x: Context) {
    s.Slave? && s.fds == x.fds && s.request == x.request
  }

  predicate JudgedIn(c: Container, x: Context) {
    && SlaveHas(c.slave, x)
    && c.td.param == x.task && !c.td.error && Judged(c.td.results, c.td.origin, x.task, x.request, x.h)
  }

  /** The slave while the run-start barrier is closed: the error flag is up. */
  predicate BeforeOpen(c: Container, x: Context) {
    && SlaveHas(c.slave, x) && c.td.error
    && (c.slave.pc == SArrive || c.slave.pc == SWait(x.runGen))
    && (c.slave.end.Some? ==> c.slave.end.value.Signaled?)
  }

  /** The slave after the run-start barrier has opened: the error flag is down
      exactly if the slave has left the barrier and reported no error. */
  predicate AfterOpen(c: Container, x: Context) {
    && SlaveHas(c.slave, x)
    && (match c.slave.pc
        case SArrive => false
        case SWait(t) => t + 1 == x.runGen && c.td.error
        case SClear => c.td.error
        case SOpen(k) => k <= 2 && !c.td.error
        case SAddPath => !c.td.error
        case SLoad => !c.td.error
        case SExec(t) => t == x.task && !c.td.error
        case SFailed => c.td.error)
    && (c.slave.end.Some? && c.slave.end.value.Exited? ==> c.slave.pc.SExec? || c.slave.pc == SFailed)
  }

  /** Between the two handovers: an odd generation, the container's turn. */
  predicate Working(c: Container, x: Context) {
    && c.held && c.bar.gen % 2 == 1 && (!c.permanent ==> c.bar.gen == 1)
    && match c.pc
       case CTaskWait(t) =>
         t + 1 == c.bar.gen && !x.started && Fresh(c, x.task) && c.td.error && Settled(c.slave) && NoController(c)
       case CMakeCpuacct => !x.started && Fresh(c, x.task) && c.td.error && Settled(c.slave) && NoController(c)
       case CMakeMemory => !x.started && Fresh(c, x.task) && c.td.error && Settled(c.slave) && c.cpuacct && !c.memory
       case CFork => !x.started && Fresh(c, x.task) && c.td.error && Settled(c.slave) && c.cpuacct && c.memory
       case CRunArrive => !x.started && Fresh(c, x.task) && BeforeOpen(c, x) && c.cpuacct && c.memory
       case CRunWait(t) =>
         && Fresh(c, x.task) && c.cpuacct && c.memory
         && (if x.started then t + 1 == x.runGen && AfterOpen(c, x) else t == x.runGen && BeforeOpen(c, x))
       case CSupervise => x.started && Fresh(c, x.task) && AfterOpen(c, x) && c.cpuacct && c.memory
       case CPublish =>
         && x.started && AfterOpen(c, x) && c.slave.end.Some? && c.cpuacct && c.memory
         && c.td.param == x.task && c.td.origin == None && c.td.results == WithStatus(BLANK, c.status)
         && c.status == (if c.overrun.Some? then None else c.slave.end)
         && (c.overrun.Some? ==> Exceeds(x.task, c.overrun.value))
       case CCheck =>
         && x.started && AfterOpen(c, x) && c.slave.end.Some? && c.cpuacct && c.memory
         && c.td.param == x.task && (!c.td.error ==> JudgedIn(c, x))
       case CDropCpuacct => x.started && JudgedIn(c, x) && Settled(c.slave) && c.cpuacct && c.memory
       case CDropMemory => x.started && JudgedIn(c, x) && Settled(c.slave) && !c.cpuacct && c.memory
       case CResultArrive => x.started && JudgedIn(c, x) && Settled(c.slave) && NoController(c)
       case CResultWait(t) => x.started && t == c.bar.gen && JudgedIn(c, x) && Settled(c.slave) && NoController(c)
       case _ => false
  }

  /** The state of a container the current request uses, given how far the
      worker has come with it. */
  predicate AtStage(c: Container, st: Stage, x: Context) {
    match st
    case Away => Ready(c) && BarOk(c, false)
    case Filled => Ready(c) && BarOk(c, false) && Fresh(c, x.task) && c.td.error
    case Handing(t) =>
      if t == c.bar.gen then Ready(c) && BarOk(c, true) && Fresh(c, x.task) && c.td.error
      else t + 1 == c.bar.gen && Working(c, x) && BarOk(c, false)
    case Lent => Working(c, x) && BarOk(c, false)
    case Fetching(t) =>
      x.started &&
      (if t == c.bar.gen then Working(c, x) && BarOk(c, true)
       else t + 1 == c.bar.gen && Finished(c) && BarOk(c, false) && JudgedIn(c, x))
    case Back => Finished(c) && BarOk(c, false) && JudgedIn(c, x)
    case Taken => Finished(c) && BarOk(c, false) && SlaveHas(c.slave, x)
  }

  /** A container the current request does not use. */
  predicate Unused(c: Container) {
    BarOk(c, false) && (if c.permanent then Ready(c) else Retired(c) && c.pc == CExited && !c.held)
  }

  // -------------------------------------------------------- the whole state

  predicate Opened(w: Worker) {
    match w.pc
    case WStartWait(t) => w.run.Released(t)
    case WClose => true
    case WCollectArrive(_) => true
    case WCollectWait(_, _) => true
    case WPut(_) => true
    case WReturnId(_) => true
    case WReap(_) => true
    case _ => false
  }

  /** Distinct indices below n. */
  predicate Handles(n: nat, s: seq<nat>) {
    Distinct(s) && forall i :: 0 <= i < |s| ==> s[i] < n
  }

  /** For every container whether it is permanent. */
  function Kinds(conts: seq<Container>): seq<bool> {
    seq(|conts|, i requires 0 <= i < |conts| => conts[i].permanent)
  }

  function CountEligible(tasks: seq<Task>): nat {
    if tasks == [] then 0
    else CountEligible(tasks[..|tasks| - 1]) + (if Eligible(tasks[|tasks| - 1]) then 1 else 0)
  }

  lemma CountOfNext(tasks: seq<Task>, i: nat)
    requires i < |tasks|
    ensures CountEligible(tasks[..i + 1]) == CountEligible(tasks[..i]) + (if Eligible(tasks[i]) then 1 else 0)
  {
    assert tasks[..i + 1][..i] == tasks[..i];
  }

  /** The places in a request of the tasks that may share a container with others. */
  function PlainPlaces(tasks: seq<Task>): set<nat> {
    set i: nat | i < |tasks| && !tasks[i].needIpc && tasks[i].useStandardBinds
  }

  lemma WithOneMore<T>(s: set<T>, x: T)
    requires x !in s
    ensures |s + {x}| == |s| + 1
  {
  }

  lemma {:induction false} CountIsCardinality(tasks: seq<Task>)
    ensures CountEligible(tasks) == |PlainPlaces(tasks)|
  {
    if tasks == [] {
      assert PlainPlaces(tasks) == {};
    } else {
      var n := |tasks| - 1;
      var front := PlainPlaces(tasks[..n]);
      CountIsCardinality(tasks[..n]);
      if !tasks[n].needIpc && tasks[n].useStandardBinds {
        assert PlainPlaces(tasks) == front + {n};
        WithOneMore(front, n);
      } else {
        assert PlainPlaces(tasks) == front;
      }
    }
  }

  function Max(a: nat, b: nat): nat { if a < b then b else a }

  /** The largest number of eligible tasks in one of these requests. */
  function PeakEligible(requests: seq<seq<Task>>): nat {
    if requests == [] then 0
    else Max(PeakEligible(requests[..|requests| - 1]), CountEligible(requests[|requests| - 1]))
  }

  /** The pc's loop index is inside the request, and the three vectors are as
      long as that pc says. */
  predicate Lengths(w: Worker) {
    var n := |w.tasks|;
    && |w.replies| == n && |w.temporary| <= |w.containers|
    && match w.pc
       case WIdle => n == 0 && w.containers == [] && w.temporary == []
       case WPrepare(next) =>
         |w.containers| <= n && next == CountEligible(w.tasks[..|w.containers|]) && next <= |w.permanent|
       case WReset => |w.containers| == n
       case WWrite(i) => |w.containers| == n && i <= n
       case WReleaseArrive(i) => |w.containers| == n && i <= n
       case WReleaseWait(i, _) => |w.containers| == n && i < n
       case WStartArrive => |w.containers| == n
       case WStartWait(t) => |w.containers| == n && (t == w.run.gen || t + 1 == w.run.gen)
       case WClose => |w.containers| == n
       case WCollectArrive(i) => |w.containers| == n && i <= n
       case WCollectWait(i, _) => |w.containers| == n && i < n
       case WPut(i) => |w.containers| == n && i < n
       case WReturnId(j) => |w.containers| == n && j <= |w.temporary|
       case WReap(j) => |w.containers| == n && j < |w.temporary|
  }

  /** Each task got the container its eligibility calls for: eligible ones the
      permanent containers in task order, the others a temporary one each. */
  ghost predicate AssignedOk(
    kinds: seq<bool>, tasks: seq<Task>, permanent: seq<nat>, temporary: seq<nat>, containers: seq<nat>)
  {
    && Handles(|kinds|, permanent) && Handles(|kinds|, temporary) && Handles(|kinds|, containers)
    && |containers| <= |tasks|
    && (forall i :: 0 <= i < |containers| ==> kinds[containers[i]] == Eligible(tasks[i]))
    && (forall i :: 0 <= i < |containers| && Eligible(tasks[i]) ==>
          && CountEligible(tasks[..i]) < |permanent|
          && containers[i] == permanent[CountEligible(tasks[..i])])
    && (forall h :: h in temporary <==> h in containers && !kinds[h])
    && (forall h :: 0 <= h < |kinds| ==> (kinds[h] <==> h in permanent))
  }

  /** The number of permanent containers is what the most demanding request
      needed, counting the one being prepared as far as it has come. */
  predicate PeakOk(w: Worker) {
    |w.permanent| == if w.pc.WPrepare?
                     then Max(PeakEligible(w.served), w.pc.next)
                     else PeakEligible(w.served)
  }

  function ReturnedIds(pc: WorkerPc): nat {
    match pc
    case WReturnId(j) => j
    case WReap(j) => j + 1
    case _ => 0
  }

  function ReapedContainers(pc: WorkerPc): nat {
    match pc
    case WReturnId(j) => j
    case WReap(j) => j
    case _ => 0
  }

  /** Of the containers in use, those whose id has been given back and those
      that have been waited for. */
  predicate IdsOk(conts: seq<Container>, temporary: seq<nat>, returned: nat, reaped: nat)
    requires Handles(|conts|, temporary)
  {
    && (forall j :: 0 <= j < |temporary| ==> (conts[temporary[j]].held <==> returned <= j))
    && (forall j :: 0 <= j < reaped && j < |temporary| ==> conts[temporary[j]].pc == CExited)
    && (forall h :: 0 <= h < |conts| && conts[h].permanent ==> conts[h].held)
  }

  function ContextOf(w: Worker, i: nat): Context
    requires i < |w.containers| <= |w.tasks|
  {
    Context(Opened(w), w.run.gen, w.tasks[i], Ends(Wanted(w.tasks)), w.request, w.containers[i])
  }

  predicate StagesOk(w: Worker)
    requires Handles(|w.conts|, w.containers) && |w.containers| <= |w.tasks|
  {
    && (forall i :: 0 <= i < |w.containers| ==>
          AtStage(w.conts[w.containers[i]], StageAt(w.pc, i), ContextOf(w, i)))
    && (forall h :: 0 <= h < |w.conts| && h !in w.containers ==> Unused(w.conts[h]))
  }

  /** Who waits in the current generation of the run-start barrier. */
  predicate WaitsAtStart(w: Worker, m: Member) {
    match m
    case TheWorker => w.pc == WStartWait(w.run.gen)
    case ContainerOf(h) => h < |w.conts| && h in w.containers && w.conts[h].pc == CRunWait(w.run.gen)
    case SlaveOf(h) =>
      h < |w.conts| && h in w.containers && w.conts[h].slave.Slave? && w.conts[h].slave.pc == SWait(w.run.gen)
  }

  predicate PastReset(pc: WorkerPc) {
    pc != WIdle && !pc.WPrepare? && pc != WReset
  }

  ghost predicate RunOk(w: Worker) {
    && (forall m :: m in w.run.arrived <==> WaitsAtStart(w, m))
    && |w.run.arrived| < w.run.count
    && (PastReset(w.pc) ==> w.run.count == 2 * |w.containers| + 1)
  }

  /** The pipes the worker has open at this point of the request. */
  function PipesAt(pc: WorkerPc, tasks: seq<Task>): set<string> {
    match pc
    case WWrite(i) => if i <= |tasks| then Wanted(tasks[..i]) else {}
    case WReleaseArrive(_) => Wanted(tasks)
    case WReleaseWait(_, _) => Wanted(tasks)
    case WStartArrive => Wanted(tasks)
    case WStartWait(_) => Wanted(tasks)
    case WClose => Wanted(tasks)
    case _ => {}
  }

  predicate PipesOk(w: Worker) {
    w.pipes == PipesAt(w.pc, w.tasks) && w.fds == Ends(w.pipes)
  }

  function Collected(w: Worker): nat {
    match w.pc
    case WCollectArrive(i) => i
    case WCollectWait(i, _) => i
    case WPut(i) => i
    case WReturnId(_) => |w.tasks|
    case WReap(_) => |w.tasks|
    case _ => 0
  }

  predicate RepliesUpTo(tasks: seq<Task>, containers: seq<nat>, replies: seq<Reply>, request: nat, n: nat) {
    && n <= |tasks| && n <= |containers| && n <= |replies|
    && forall i :: 0 <= i < n ==> Judged(replies[i].results, replies[i].origin, tasks[i], request, containers[i])
  }

  /** A response the client may rely on: one verdict for each task, in order, on
      a run of that task made for this request, each in a container of its own. */
  predicate ResponseOk(r: Response) {
    && |r.tasks| == |r.containers| == |r.replies|
    && Distinct(r.containers)
    && RepliesUpTo(r.tasks, r.containers, r.replies, r.request, |r.tasks|)
  }

  /** The current request has its response, or there is no current request. */
  predicate Answered(pc: WorkerPc) {
    pc == WIdle || pc.WReturnId? || pc.WReap?
  }

  /** Request number k was prepared for, and answered, in its turn. */
  predicate HistoryOk(responses: seq<Response>, served: seq<seq<Task>>) {
    && |responses| <= |served|
    && forall k :: 0 <= k < |responses| ==>
         ResponseOk(responses[k]) && responses[k].request == k + 1 && responses[k].tasks == served[k]
  }

  predicate CountersOk(w: Worker) {
    && (!Answered(w.pc) ==> w.request > 0)
    && |w.responses| == (if Answered(w.pc) then w.request else w.request - 1)
    && |w.served| == (if w.pc.WPrepare? then w.request - 1 else w.request)
    && (w.pc != WIdle && !w.pc.WPrepare? ==> w.request > 0 && w.served[w.request - 1] == w.tasks)
  }

  /** Everything but the container states and the run-start barrier. */
  ghost predicate Shape(w: Worker) {
    && Lengths(w)
    && AssignedOk(Kinds(w.conts), w.tasks, w.permanent, w.temporary, w.containers)
    && PeakOk(w)
    && IdsOk(w.conts, w.temporary, ReturnedIds(w.pc), ReapedContainers(w.pc))
    && PipesOk(w)
    && RepliesUpTo(w.tasks, w.containers, w.replies, w.request, Collected(w))
    && HistoryOk(w.responses, w.served) && CountersOk(w)
  }

  predicate Staged(w: Worker) {
    Handles(|w.conts|, w.containers) && |w.containers| <= |w.tasks| && StagesOk(w)
  }

  ghost predicate Inv(w: Worker) {
    Shape(w) && Staged(w) && RunOk(w)
  }
}
