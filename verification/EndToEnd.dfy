/** From the parameters a client sets to the results it reads: the messages and the
    protocol together. */
module EndToEnd {
  import opened TaskModel
  import opened Json
  import opened Messages
  import opened Protocol
  import opened ProtocolInvariant
  import opened ProtocolSafety

  /** The tasks the worker makes of a request document. */
  function TasksIn(items: seq<Value>): seq<Task>
    requires forall i :: 0 <= i < |items| ==> IsRequest(items[i])
  {
    seq(|items|, i requires 0 <= i < |items| => TaskIn(items[i]))
  }

  function RequestItems(tasks: seq<Task>): seq<Value> {
    RequestDocument(tasks).members[0].1.items
  }

  /** The results in a reply of the worker to request k. */
  function RepliedResults(r: Response): seq<Results> {
    seq(|r.replies|, i requires 0 <= i < |r.replies| => r.replies[i].results)
  }

  predicate Sendable(tasks: seq<Task>) {
    forall i :: 0 <= i < |tasks| ==> TypedTask(tasks[i]) && NulFreeTask(tasks[i])
  }

  lemma RequestsArrive(tasks: seq<Task>)
    requires Sendable(tasks)
    ensures At(RequestDocument(tasks), "tasks") == Arr(RequestItems(tasks))
    ensures forall i :: 0 <= i < |tasks| ==> IsRequest(RequestItems(tasks)[i])
    ensures |RequestItems(tasks)| == |tasks| && TasksIn(RequestItems(tasks)) == tasks
  {
    hide IsRequest, TaskIn, TypedTask, NulFreeTask, RequestValue;
    forall i | 0 <= i < |tasks|
      ensures IsRequest(RequestItems(tasks)[i]) && TaskIn(RequestItems(tasks)[i]) == tasks[i]
    {
      RequestRoundTripIff(tasks[i]);
    }
  }

  /** Let clients send requests `sent`, and let the worker, in any run, have accepted
      what it makes of them, in that order. When it is idle again there is a response
      to every request, and what the client reads as the result of its task i is the
      verdict on a run of that very task, made for that request. It reports what was
      observed, if only the readings are 64-bit numbers; of a run that was stopped it
      reports neither exit nor signal, of any other run how the slave ended; it is right
      about the task's limits, and unless a clock was set back it says why the run was
      over. */
  lemma ClientsGetVerdicts(sent: seq<seq<Task>>, actions: seq<Action>, w: Worker, k: nat, i: nat)
    requires forall q :: 0 <= q < |sent| ==> Sendable(sent[q])
    requires Run(INITIAL, actions) == Some(w) && w.pc == WIdle
    requires |Accepted(actions)| == |sent|
    requires forall q :: 0 <= q < |sent| ==> IsReceived(Accepted(actions)[q], sent[q])
    requires forall q :: 0 <= q < |w.responses| ==>
               forall j :: 0 <= j < |w.responses[q].replies| && w.responses[q].replies[j].origin.Some? ==>
                 ObservationFits(w.responses[q].replies[j].origin.value.obs)
    requires k < |sent| && i < |sent[k]|
    ensures k < |w.responses| && |w.responses[k].replies| == |w.responses[k].containers| == |sent[k]|
    ensures var r := w.responses[k];
            var document := ResponseDocument(RepliedResults(r));
            && Has(document, "tasks") && At(document, "tasks").Arr? && |At(document, "tasks").items| == |sent[k]|
            && IsResponse(At(document, "tasks").items[i])
            && var result, origin := ResultsIn(At(document, "tasks").items[i]), r.replies[i].origin;
            && ResponseSays(At(document, "tasks").items[i], result)
            && Judged(result, origin, sent[k][i], k + 1, r.containers[i]) && Reports(result, origin.value, sent[k][i])
            && (origin.value.overrun.Some? ==>
                  !result.exited && result.exitCode == -1 && !result.signaled && result.termSignal == -1)
            && (origin.value.overrun.None? ==> origin.value.end.Some? && EndsAs(result, origin.value.end))
            && FlagsRight(sent[k][i], result) && (ReadOn(origin.value) ==> NamesReason(result))
  {
    hide IsResponse, ResultsIn, Run, Sendable, ResponseValue, ResponseSays, ObservationFits, Judge, FlagsRight;
    ResponsesAnswerRequests(actions, w);
    RequestsArrive(sent[k]);
    assert IsReceived(Accepted(actions)[k], sent[k]);
    var r := w.responses[k];
    VerdictsCross(sent[k][i], r.replies[i].origin.value.obs);
    assert RepliedResults(r)[i] == r.replies[i].results;
    JudgedMakesSense(r.replies[i].results, r.replies[i].origin, sent[k][i], k + 1, r.containers[i]);
  }

  /** What the worker accepted is what ReadRequest makes of the client's document. */
  predicate IsReceived(accepted: seq<Task>, sent: seq<Task>) {
    && (forall i :: 0 <= i < |RequestItems(sent)| ==> IsRequest(RequestItems(sent)[i]))
    && accepted == TasksIn(RequestItems(sent))
  }
}
