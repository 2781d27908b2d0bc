/** The two ends of a message: libsbox::Task as the client and the worker hold it,
    run_together on the client's side (src/libsbox.cpp) and the parsing and printing
    of Worker::process on the other (src/worker.cpp). */
module Messages {
  import opened TaskModel
  import opened CStrings
  import opened Json

  // ------------------------------------------------------- lists in messages

  method ReadStrings(v: Value, key: string) returns (r: Option<seq<string>>)
    ensures r == GetStrings(v, key)
  {
    if !Has(v, key) || !At(v, key).Arr? {
      return None;
    }
    var items := At(v, key).items;
    var strings := [];
    for i := 0 to |items|
      invariant |strings| == i
      invariant forall k :: 0 <= k < i ==> items[k].Str? && strings[k] == CPrefix(items[k].s)
    {
      if !items[i].Str? {
        return None;
      }
      strings := strings + [CPrefix(items[i].s)];
    }
    assert strings == StringsIn(At(v, key));
    return Some(strings);
  }

  method ReadBinds(v: Value, key: string) returns (r: Option<seq<BindRule>>)
    ensures r == GetBinds(v, key)
  {
    if !Has(v, key) || !At(v, key).Arr? {
      return None;
    }
    var items := At(v, key).items;
    var binds := [];
    for i := 0 to |items|
      invariant |binds| == i
      invariant forall k :: 0 <= k < i ==> IsBind(items[k]) && binds[k] == BindIn(items[k])
    {
      if !IsBind(items[i]) {
        return None;
      }
      binds := binds + [BindIn(items[i])];
    }
    assert binds == BindsIn(At(v, key));
    return Some(binds);
  }

  // ----------------------------------------------------------- the ARRAY macro

  method SerializeStrings(ss: seq<string>) returns (v: Value)
    ensures v == StringsValue(ss)
  {
    var items := [];
    for i := 0 to |ss|
      invariant |items| == i && forall k :: 0 <= k < i ==> items[k] == Str(ss[k])
    {
      items := items + [Str(ss[i])];
    }
    assert items == StringsValue(ss).items;
    return Arr(items);
  }

  method SerializeBinds(binds: seq<BindRule>) returns (v: Value)
    ensures v == BindsValue(binds)
  {
    var items := [];
    for i := 0 to |binds|
      invariant |items| == i && forall k :: 0 <= k < i ==> items[k] == BindValue(binds[k])
    {
      items := items + [BindValue(binds[i])];
    }
    assert items == BindsValue(binds).items;
    return Arr(items);
  }

  // ---------------------------------------------------------------- the object

  /** libsbox::Task: the parameters are the client's to set, the results the
      worker's. */
  class TaskObject {
    var params: Task
    var results: Results

    constructor ()
      ensures params == Task(-1, -1, -1, -1, 16, 1, false, true, "", "", "", [], [], [])
      ensures results == Results(0, 0, 0, 0, 0, false, false, false, -1, false, -1, false, false)
    {
      params, results := DEFAULT_TASK, DEFAULT_RESULTS;
    }

    method SerializeRequest() returns (v: Value)
      ensures v == RequestValue(params)
    {
      var argv := SerializeStrings(params.argv);
      var env := SerializeStrings(params.env);
      var binds := SerializeBinds(params.binds);
      var members: Members := [
        ("time_limit_ms", Number(params.timeLimitMs)),
        ("wall_time_limit_ms", Number(params.wallTimeLimitMs)),
        ("memory_limit_kb", Number(params.memoryLimitKb)),
        ("fsize_limit_kb", Number(params.fsizeLimitKb)),
        ("max_files", Number(params.maxFiles)),
        ("max_threads", Number(params.maxThreads)),
        ("need_ipc", Bool(params.needIpc)),
        ("use_standard_binds", Bool(params.useStandardBinds)),
        ("stdin", Str(params.stdin)), ("stdout", Str(params.stdout)), ("stderr", Str(params.stderr)),
        ("argv", argv), ("env", env), ("binds", binds)];
      assert members == Labelled(REQUEST_KEYS, RequestFields(params));
      return Obj(members);
    }

    /** Member by member. False: the worker dies. */
    method DeserializeRequest(value: Value) returns (ok: bool)
      modifies this`params
      ensures ok <==> IsRequest(value)
      ensures ok ==> params == TaskIn(value) && RequestSays(value, params)
      ensures !ok ==> forall t :: !RequestSays(value, t)
    {
      hide RequestSays;
      forall t ensures IsRequest(value) && TaskIn(value) == t <==> RequestSays(value, t) {
        RequestMeans(value, t);
      }
      hide GetInt64, GetInt, GetBool, GetStream, GetStrings, GetBinds;
      var timeLimitMs := GetInt64(value, "time_limit_ms");
      if timeLimitMs.None? { return false; }
      var wallTimeLimitMs := GetInt64(value, "wall_time_limit_ms");
      if wallTimeLimitMs.None? { return false; }
      var memoryLimitKb := GetInt64(value, "memory_limit_kb");
      if memoryLimitKb.None? { return false; }
      var fsizeLimitKb := GetInt64(value, "fsize_limit_kb");
      if fsizeLimitKb.None? { return false; }
      var maxFiles := GetInt(value, "max_files");
      if maxFiles.None? { return false; }
      var maxThreads := GetInt(value, "max_threads");
      if maxThreads.None? { return false; }
      var needIpc := GetBool(value, "need_ipc");
      if needIpc.None? { return false; }
      var useStandardBinds := GetBool(value, "use_standard_binds");
      if useStandardBinds.None? { return false; }
      var stdin := GetStream(value, "stdin");
      if stdin.None? { return false; }
      var stdout := GetStream(value, "stdout");
      if stdout.None? { return false; }
      var stderr := GetStream(value, "stderr");
      if stderr.None? { return false; }
      var argv := ReadStrings(value, "argv");
      if argv.None? { return false; }
      var env := ReadStrings(value, "env");
      if env.None? { return false; }
      var binds := ReadBinds(value, "binds");
      if binds.None? { return false; }
      params := Task(timeLimitMs.value, wallTimeLimitMs.value, memoryLimitKb.value, fsizeLimitKb.value,
            maxFiles.value, maxThreads.value, needIpc.value, useStandardBinds.value, stdin.value,
            stdout.value, stderr.value, argv.value, env.value, binds.value);
      return true;
    }

    method SerializeResponse() returns (v: Value)
      ensures v == ResponseValue(results)
    {
      var members: Members := [
        ("time_usage_ms", Number(results.timeUsageMs)),
        ("time_usage_sys_ms", Number(results.timeUsageSysMs)),
        ("time_usage_user_ms", Number(results.timeUsageUserMs)),
        ("wall_time_usage_ms", Number(results.wallTimeUsageMs)),
        ("memory_usage_kb", Number(results.memoryUsageKb)),
        ("time_limit_exceeded", Bool(results.timeLimitExceeded)),
        ("wall_time_limit_exceeded", Bool(results.wallTimeLimitExceeded)),
        ("exited", Bool(results.exited)),
        ("exit_code", Number(results.exitCode)),
        ("signaled", Bool(results.signaled)),
        ("term_signal", Number(results.termSignal)),
        ("oom_killed", Bool(results.oomKilled)),
        ("memory_limit_hit", Bool(results.memoryLimitHit))];
      assert members == Labelled(RESPONSE_KEYS, ResponseFields(results));
      return Obj(members);
    }

    /** GET_MEMBER for the member of that number. */
    method ReadMember(i: nat, value: Value, ghost early: Results) returns (ok: bool)
      requires i < |RESPONSE_KEYS| && ReadUpTo(value, i, early, results)
      modifies this`results
      ensures ok <==> Good(value, i)
      ensures ReadUpTo(value, if ok then i + 1 else i, early, results)
    {
      hide Has, At, HasKind, WithField, ReadUpTo;
      if !Has(value, RESPONSE_KEYS[i]) || !HasKind(At(value, RESPONSE_KEYS[i]), KindOf(i)) {
        return false;
      }
      OneMoreRead(value, i, early, results);
      results := WithField(results, i, At(value, RESPONSE_KEYS[i]));
      return true;
    }

    /** Member by member, until one is missing or has the wrong type: the first n have
        then been overwritten. False: run_together reports an incorrect response. */
    method DeserializeResponse(value: Value) returns (ok: bool, ghost n: nat)
      modifies this`results
      ensures ReadUpTo(value, n, old(results), results)
      ensures ok <==> n == |RESPONSE_KEYS|
      ensures !ok ==> n < |RESPONSE_KEYS| && !Good(value, n)
      ensures ok <==> IsResponse(value)
      ensures ok ==> results == ResultsIn(value) && ResponseSays(value, results)
      ensures !ok ==> forall r :: !ResponseSays(value, r)
    {
      hide ReadUpTo, Good, IsResponse, ResultsIn, ResponseSays;
      forall r ensures IsResponse(value) && ResultsIn(value) == r <==> ResponseSays(value, r) {
        ResponseMeans(value, r);
      }
      ghost var early := results;
      NothingRead(value, results);
      AllGoodIff(value);
      n := 0;
      ok := ReadMember(0, value, early);
      if ok { n := 1; ok := ReadMember(1, value, early); }
      if ok { n := 2; ok := ReadMember(2, value, early); }
      if ok { n := 3; ok := ReadMember(3, value, early); }
      if ok { n := 4; ok := ReadMember(4, value, early); }
      if ok { n := 5; ok := ReadMember(5, value, early); }
      if ok { n := 6; ok := ReadMember(6, value, early); }
      if ok { n := 7; ok := ReadMember(7, value, early); }
      if ok { n := 8; ok := ReadMember(8, value, early); }
      if ok { n := 9; ok := ReadMember(9, value, early); }
      if ok { n := 10; ok := ReadMember(10, value, early); }
      if ok { n := 11; ok := ReadMember(11, value, early); }
      if ok { n := 12; ok := ReadMember(12, value, early); }
      if ok {
        n := 13;
        AllRead(value, early, results);
      }
    }
  }

  // ------------------------------------------------------------- whole messages

  function RequestDocument(tasks: seq<Task>): Value {
    Obj([("tasks", Arr(seq(|tasks|, i requires 0 <= i < |tasks| => RequestValue(tasks[i]))))])
  }

  function ResponseDocument(results: seq<Results>): Value {
    Obj([("tasks", Arr(seq(|results|, i requires 0 <= i < |results| => ResponseValue(results[i]))))])
  }

  function ErrorDocument(message: string): Value {
    Obj([("error", Str(CPrefix(message)))])
  }

  ghost function Params(tasks: seq<TaskObject>): seq<Task>
    reads tasks
  {
    seq(|tasks|, i requires 0 <= i < |tasks| reads tasks => tasks[i].params)
  }

  ghost function AllResults(tasks: seq<TaskObject>): seq<Results>
    reads tasks
  {
    seq(|tasks|, i requires 0 <= i < |tasks| reads tasks => tasks[i].results)
  }

  /** A task's parameters, from one object through the request into another. */
  method SendTask(sender: TaskObject) returns (ok: bool, receiver: TaskObject)
    requires TypedTask(sender.params)
    ensures ok && fresh(receiver)
    ensures receiver.params == sender.params <==> NulFreeTask(sender.params)
  {
    RequestRoundTripIff(sender.params);
    var v := sender.SerializeRequest();
    receiver := new TaskObject();
    ok := receiver.DeserializeRequest(v);
  }

  /** A task's results, from one object through the response into another, whatever
      that held before. */
  method SendResults(sender: TaskObject, receiver: TaskObject) returns (ok: bool)
    requires TypedResults(sender.results)
    modifies receiver`results
    ensures ok && receiver.results == old(sender.results)
  {
    ResponseRoundTrip(sender.results);
    var v := sender.SerializeResponse();
    ghost var n;
    ok, n := receiver.DeserializeResponse(v);
  }

  /** run_together, up to the message it sends. */
  method WriteRequest(tasks: seq<TaskObject>) returns (document: Value)
    ensures document == RequestDocument(Params(tasks))
  {
    var items := [];
    for i := 0 to |tasks|
      invariant |items| == i && forall k :: 0 <= k < i ==> items[k] == RequestValue(tasks[k].params)
    {
      var item := tasks[i].SerializeRequest();
      items := items + [item];
    }
    assert items == RequestDocument(Params(tasks)).members[0].1.items;
    return Obj([("tasks", Arr(items))]);
  }

  /** The validated request becomes the worker's tasks. False: the worker dies. */
  method ReadRequest(document: Value) returns (ok: bool, tasks: seq<TaskObject>)
    requires Has(document, "tasks") && At(document, "tasks").Arr?
    ensures ok <==> forall i :: 0 <= i < |At(document, "tasks").items| ==> IsRequest(At(document, "tasks").items[i])
    ensures ok ==> |tasks| == |At(document, "tasks").items|
    ensures forall i :: 0 <= i < |tasks| ==> fresh(tasks[i])
    ensures ok ==> forall i, j :: 0 <= i < j < |tasks| ==> tasks[i] != tasks[j]
    ensures ok ==> forall i :: 0 <= i < |tasks| ==> tasks[i].params == TaskIn(At(document, "tasks").items[i])
    ensures ok ==> forall i :: 0 <= i < |tasks| ==> RequestSays(At(document, "tasks").items[i], tasks[i].params)
  {
    hide IsRequest, TaskIn, RequestSays, Find;
    var items := At(document, "tasks").items;
    tasks := [];
    for i := 0 to |items|
      invariant |tasks| == i && forall k :: 0 <= k < i ==> fresh(tasks[k])
      invariant forall k, l :: 0 <= k < l < i ==> tasks[k] != tasks[l]
      invariant forall k :: 0 <= k < i ==> IsRequest(items[k]) && tasks[k].params == TaskIn(items[k])
      invariant forall k :: 0 <= k < i ==> RequestSays(items[k], tasks[k].params)
    {
      var task := new TaskObject();
      ok := task.DeserializeRequest(items[i]);
      if !ok {
        return false, tasks;
      }
      tasks := tasks + [task];
    }
    return true, tasks;
  }

  /** collect_results, after the results have been put. */
  method WriteResponse(tasks: seq<TaskObject>) returns (document: Value)
    ensures document == ResponseDocument(AllResults(tasks))
  {
    var items := [];
    for i := 0 to |tasks|
      invariant |items| == i && forall k :: 0 <= k < i ==> items[k] == ResponseValue(tasks[k].results)
    {
      var item := tasks[i].SerializeResponse();
      items := items + [item];
    }
    assert items == ResponseDocument(AllResults(tasks)).members[0].1.items;
    return Obj([("tasks", Arr(items))]);
  }

  predicate IsError(document: Value) {
    Has(document, "error") && At(document, "error").Str?
  }

  /** The answer to a request that cannot be parsed or is refused. */
  method WriteError(message: string) returns (document: Value)
    ensures document == ErrorDocument(message)
  {
    return Obj([("error", Str(CPrefix(message)))]);
  }

  /** The client is told what the worker said, up to its first NUL. */
  lemma ErrorArrives(message: string)
    ensures IsError(ErrorDocument(message))
    ensures CPrefix(At(ErrorDocument(message), "error").s) == CPrefix(message)
  {
    CPrefixIsWholeIff(message);
    CPrefixIsWholeIff(CPrefix(message));
  }

  /** Task i is not among those at the places from `low` to `high`. */
  ghost predicate NotAmong(tasks: seq<TaskObject>, i: nat, low: nat, high: nat)
    requires i < |tasks| && high <= |tasks|
  {
    forall j :: low <= j < high ==> tasks[j] != tasks[i]
  }

  lemma NotAmongOneMore(tasks: seq<TaskObject>, k: nat, low: nat, i: nat)
    requires k < |tasks| && low <= i < |tasks|
    ensures NotAmong(tasks, k, low, i + 1) <==> NotAmong(tasks, k, low, i) && tasks[i] != tasks[k]
  {
  }

  lemma StepsOfNotAmong(tasks: seq<TaskObject>, i: nat)
    requires i < |tasks|
    ensures forall k :: 0 <= k < |tasks| ==>
              (NotAmong(tasks, k, 0, i + 1) <==> NotAmong(tasks, k, 0, i) && tasks[i] != tasks[k])
    ensures forall k :: 0 <= k < i ==>
              (NotAmong(tasks, k, k + 1, i + 1) <==> NotAmong(tasks, k, k + 1, i) && tasks[i] != tasks[k])
  {
    hide NotAmong;
    forall k | 0 <= k < |tasks|
      ensures NotAmong(tasks, k, 0, i + 1) <==> NotAmong(tasks, k, 0, i) && tasks[i] != tasks[k]
      ensures k < i ==> (NotAmong(tasks, k, k + 1, i + 1) <==> NotAmong(tasks, k, k + 1, i) && tasks[i] != tasks[k])
    {
      NotAmongOneMore(tasks, k, 0, i);
      if k < i {
        NotAmongOneMore(tasks, k, k + 1, i);
      }
    }
  }

  /** The loop of run_together over the entries of a response. */
  method ReadEntries(items: seq<Value>, tasks: seq<TaskObject>) returns (ok: bool, ghost bad: nat, ghost n: nat)
    requires |items| == |tasks|
    modifies set i | 0 <= i < |tasks| :: tasks[i]`results
    ensures ok ==> bad == |tasks|
    ensures !ok ==> bad < |tasks| && !IsResponse(items[bad])
    ensures !ok && NotAmong(tasks, bad, 0, bad) ==>
              ReadUpTo(items[bad], n, old(tasks[bad].results), tasks[bad].results)
    ensures forall k :: 0 <= k < bad ==> IsResponse(items[k])
    ensures forall k :: 0 <= k < bad && NotAmong(tasks, k, k + 1, if ok then bad else bad + 1) ==>
              tasks[k].results == ResultsIn(items[k])
    ensures forall k :: 0 <= k < |tasks| && NotAmong(tasks, k, 0, if ok then bad else bad + 1) ==>
              tasks[k].results == old(tasks[k].results)
  {
    hide IsResponse, ResultsIn, ReadUpTo, Good, NotAmong;
    bad, n := 0, 0;
    for i := 0 to |tasks|
      invariant bad == i
      invariant forall k :: 0 <= k < i ==> IsResponse(items[k])
      invariant forall k :: 0 <= k < i && NotAmong(tasks, k, k + 1, i) ==> tasks[k].results == ResultsIn(items[k])
      invariant forall k :: 0 <= k < |tasks| && NotAmong(tasks, k, 0, i) ==> tasks[k].results == old(tasks[k].results)
    {
      StepsOfNotAmong(tasks, i);
      ok, n := tasks[i].DeserializeResponse(items[i]);
      if !ok {
        return;
      }
      bad := i + 1;
    }
    ok := true;
  }

  /** run_together, from the response document that its schema has accepted: that a
      document without an error message has an array of tasks is what the schema is
      for. None: no error. A task that is in the list twice has the results of its
      last place. If an entry is refused, the tasks before it have their results, that
      one has what precedes the bad member, and the others are as they were. */
  method ReadResponse(document: Value, tasks: seq<TaskObject>)
      returns (error: Option<string>, ghost bad: nat, ghost n: nat)
    requires IsError(document) || (Has(document, "tasks") && At(document, "tasks").Arr?)
    modifies set i | 0 <= i < |tasks| :: tasks[i]`results
    ensures IsError(document) ==> error == Some("[remote] " + CPrefix(At(document, "error").s))
    ensures !IsError(document) ==>
              (error.None? <==>
                && |At(document, "tasks").items| == |tasks|
                && forall i :: 0 <= i < |tasks| ==> IsResponse(At(document, "tasks").items[i]))
    ensures error.None? ==>
              forall i :: 0 <= i < |tasks| && NotAmong(tasks, i, i + 1, |tasks|) ==>
                && tasks[i].results == ResultsIn(At(document, "tasks").items[i])
                && ResponseSays(At(document, "tasks").items[i], tasks[i].results)
    ensures IsError(document) || |At(document, "tasks").items| != |tasks| ==>
              forall i :: 0 <= i < |tasks| ==> tasks[i].results == old(tasks[i].results)
    ensures !IsError(document) && |At(document, "tasks").items| == |tasks| && error.Some? ==>
              var items := At(document, "tasks").items;
              && bad < |tasks| && !IsResponse(items[bad]) && (forall r :: !ResponseSays(items[bad], r))
              && (forall i :: 0 <= i < bad ==> IsResponse(items[i]))
              && (forall i :: 0 <= i < bad && NotAmong(tasks, i, i + 1, bad + 1) ==>
                    tasks[i].results == ResultsIn(items[i]))
              && (NotAmong(tasks, bad, 0, bad) ==>
                    ReadUpTo(items[bad], n, old(tasks[bad].results), tasks[bad].results))
              && (forall i :: 0 <= i < |tasks| && NotAmong(tasks, i, 0, bad + 1) ==>
                    tasks[i].results == old(tasks[i].results))
  {
    hide Find, CPrefix, IsResponse, ResultsIn, ReadUpTo, Good, NotAmong, ResponseSays;
    bad, n := 0, 0;
    if IsError(document) {
      return Some("[remote] " + CPrefix(At(document, "error").s)), 0, 0;
    }
    var items := At(document, "tasks").items;
    if |items| != |tasks| {
      return Some("Response JSON object 'tasks' array size is not equal to tasks count"), 0, 0;
    }
    var ok;
    ok, bad, n := ReadEntries(items, tasks);
    forall i, r | 0 <= i < |items|
      ensures IsResponse(items[i]) && ResultsIn(items[i]) == r <==> ResponseSays(items[i], r)
    {
      ResponseMeans(items[i], r);
    }
    error := if ok then None else Some("Response JSON is incorrect");
  }
}
