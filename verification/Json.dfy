/** The JSON value trees that requests and responses are: the serialisers and
    deserialisers of libsbox::Task and the ends of run_together and of
    Worker::process, src/libsbox.cpp and src/worker.cpp. */
module Json {
  import opened TaskModel
  import opened CStrings

  datatype Value =
    | Null
    | Bool(b: bool)
    | Number(n: int)
    | Fraction
    | Str(s: string)
    | Arr(items: seq<Value>)
    | Obj(members: seq<(string, Value)>)

  type Members = seq<(string, Value)>

  // -------------------------------------------------------- names of members

  const REQUEST_KEYS := [
    "time_limit_ms", "wall_time_limit_ms", "memory_limit_kb", "fsize_limit_kb", "max_files", "max_threads",
    "need_ipc", "use_standard_binds", "stdin", "stdout", "stderr", "argv", "env", "binds"]

  const RESPONSE_KEYS := [
    "time_usage_ms", "time_usage_sys_ms", "time_usage_user_ms", "wall_time_usage_ms", "memory_usage_kb",
    "time_limit_exceeded", "wall_time_limit_exceeded", "exited", "exit_code", "signaled", "term_signal",
    "oom_killed", "memory_limit_hit"]

  const BIND_KEYS := ["inside", "outside", "flags"]

  // ------------------------------------------------------ members of objects

  /** The first member of that name: HasMember and operator[] look from the front. */
  function Find(members: Members, key: string): Option<Value> {
    if members == [] then None
    else if members[0].0 == key then Some(members[0].1)
    else Find(members[1..], key)
  }

  predicate Has(v: Value, key: string) {
    v.Obj? && Find(v.members, key).Some?
  }

  function At(v: Value, key: string): Value
    requires Has(v, key)
  {
    Find(v.members, key).value
  }

  function Labelled(keys: seq<string>, values: seq<Value>): Members
    requires |keys| == |values|
  {
    seq(|keys|, i requires 0 <= i < |keys| => (keys[i], values[i]))
  }

  lemma {:induction false} FindLabelled(keys: seq<string>, values: seq<Value>, i: nat)
    requires |keys| == |values| && i < |keys| && Distinct(keys)
    ensures Find(Labelled(keys, values), keys[i]) == Some(values[i])
  {
    if i > 0 {
      assert Labelled(keys, values)[1..] == Labelled(keys[1..], values[1..]);
      assert keys[0] != keys[i] && keys[1..][i - 1] == keys[i];
      FindLabelled(keys[1..], values[1..], i - 1);
    }
  }

  // ------------------------------------------------------------- the types

  predicate IsInt64(v: Value) {
    v.Number? && -0x8000_0000_0000_0000 <= v.n < 0x8000_0000_0000_0000
  }

  predicate IsInt(v: Value) {
    v.Number? && -0x8000_0000 <= v.n < 0x8000_0000
  }

  predicate IsStrings(v: Value) {
    v.Arr? && forall i :: 0 <= i < |v.items| ==> v.items[i].Str?
  }

  predicate IsBind(v: Value) {
    && Has(v, "inside") && At(v, "inside").Str?
    && Has(v, "outside") && At(v, "outside").Str?
    && Has(v, "flags") && IsInt(At(v, "flags"))
  }

  predicate IsBinds(v: Value) {
    v.Arr? && forall i :: 0 <= i < |v.items| ==> IsBind(v.items[i])
  }

  function StringsIn(v: Value): seq<string>
    requires IsStrings(v)
  {
    seq(|v.items|, i requires 0 <= i < |v.items| => CPrefix(v.items[i].s))
  }

  function BindIn(v: Value): BindRule
    requires IsBind(v)
  {
    BindRule(CPrefix(At(v, "inside").s), CPrefix(At(v, "outside").s), At(v, "flags").n)
  }

  function BindsIn(v: Value): seq<BindRule>
    requires IsBinds(v)
  {
    seq(|v.items|, i requires 0 <= i < |v.items| => BindIn(v.items[i]))
  }

  // ------------------------------------------------------- the GET_MEMBER macro

  function GetInt64(v: Value, key: string): Option<int> {
    if Has(v, key) && IsInt64(At(v, key)) then Some(At(v, key).n) else None
  }

  function GetInt(v: Value, key: string): Option<int> {
    if Has(v, key) && IsInt(At(v, key)) then Some(At(v, key).n) else None
  }

  function GetBool(v: Value, key: string): Option<bool> {
    if Has(v, key) && At(v, key).Bool? then Some(At(v, key).b) else None
  }

  /** A stream may be null, which is the empty name. */
  function GetStream(v: Value, key: string): Option<string> {
    if !Has(v, key) then None
    else
      match At(v, key)
      case Null => Some("")
      case Str(s) => Some(CPrefix(s))
      case _ => None
  }

  function GetStrings(v: Value, key: string): Option<seq<string>> {
    if Has(v, key) && IsStrings(At(v, key)) then Some(StringsIn(At(v, key))) else None
  }

  function GetBinds(v: Value, key: string): Option<seq<BindRule>> {
    if Has(v, key) && IsBinds(At(v, key)) then Some(BindsIn(At(v, key))) else None
  }

  // ------------------------------------------ what a member says, and what is read

  predicate In32(n: int) {
    -2147483648 <= n <= 2147483647
  }

  predicate In64(n: int) {
    -9223372036854775808 <= n <= 9223372036854775807
  }

  predicate SaysInt64(m: Members, key: string, n: int) {
    Find(m, key) == Some(Number(n)) && In64(n)
  }

  predicate SaysInt(m: Members, key: string, n: int) {
    Find(m, key) == Some(Number(n)) && In32(n)
  }

  predicate SaysBool(m: Members, key: string, b: bool) {
    Find(m, key) == Some(Bool(b))
  }

  predicate SaysString(m: Members, key: string, s: string) {
    Find(m, key).Some? && Find(m, key).value.Str? && s == CPrefix(Find(m, key).value.s)
  }

  predicate SaysStream(m: Members, key: string, s: string) {
    SaysString(m, key, s) || (Find(m, key) == Some(Null) && s == "")
  }

  predicate SaysStrings(m: Members, key: string, ss: seq<string>) {
    && Find(m, key).Some? && Find(m, key).value.Arr?
    && var items := Find(m, key).value.items;
       && |items| == |ss|
       && forall i :: 0 <= i < |items| ==> items[i].Str? && ss[i] == CPrefix(items[i].s)
  }

  predicate SaysBind(v: Value, b: BindRule) {
    v.Obj? && SaysString(v.members, "inside", b.inside) && SaysString(v.members, "outside", b.outside)
    && SaysInt(v.members, "flags", b.flags)
  }

  predicate SaysBinds(m: Members, key: string, binds: seq<BindRule>) {
    && Find(m, key).Some? && Find(m, key).value.Arr?
    && var items := Find(m, key).value.items;
       && |items| == |binds|
       && forall i :: 0 <= i < |items| ==> SaysBind(items[i], binds[i])
  }

  /** Find takes the first member of a name, if there is one. */
  lemma {:induction false} FindIsFirst(members: Members, key: string, at: nat)
    requires at <= |members| && forall i :: 0 <= i < at ==> members[i].0 != key
    requires at < |members| ==> members[at].0 == key
    ensures Find(members, key) == if at < |members| then Some(members[at].1) else None
  {
    if at > 0 {
      FindIsFirst(members[1..], key, at - 1);
    }
  }

  /** A number is read exactly if it is one of the member's width, and as itself. */
  lemma GetInt64Iff(v: Value, key: string, n: int)
    ensures GetInt64(v, key) == Some(n) <==> v.Obj? && SaysInt64(v.members, key, n)
  {
  }

  lemma GetIntIff(v: Value, key: string, n: int)
    ensures GetInt(v, key) == Some(n) <==> v.Obj? && SaysInt(v.members, key, n)
  {
  }

  lemma GetBoolIff(v: Value, key: string, b: bool)
    ensures GetBool(v, key) == Some(b) <==> v.Obj? && SaysBool(v.members, key, b)
  {
  }

  lemma GetStreamIff(v: Value, key: string, s: string)
    ensures GetStream(v, key) == Some(s) <==> v.Obj? && SaysStream(v.members, key, s)
  {
    hide CPrefix;
  }

  lemma GetStringsIff(v: Value, key: string, ss: seq<string>)
    ensures GetStrings(v, key) == Some(ss) <==> v.Obj? && SaysStrings(v.members, key, ss)
  {
    hide CPrefix;
    if v.Obj? && SaysStrings(v.members, key, ss) {
      assert StringsIn(At(v, key)) == ss;
    }
  }

  lemma BindInIff(v: Value, b: BindRule)
    ensures IsBind(v) && BindIn(v) == b <==> SaysBind(v, b)
  {
    hide CPrefix, Find;
  }

  lemma GetBindsIff(v: Value, key: string, binds: seq<BindRule>)
    ensures GetBinds(v, key) == Some(binds) <==> v.Obj? && SaysBinds(v.members, key, binds)
  {
    hide Find, IsBind, BindIn, SaysBind;
    if v.Obj? && Find(v.members, key).Some? && At(v, key).Arr? && |At(v, key).items| == |binds| {
      var items := At(v, key).items;
      forall i | 0 <= i < |items|
        ensures IsBind(items[i]) && BindIn(items[i]) == binds[i] <==> SaysBind(items[i], binds[i])
      {
        BindInIff(items[i], binds[i]);
      }
      if SaysBinds(v.members, key, binds) {
        assert BindsIn(At(v, key)) == binds;
      }
    }
  }

  // -------------------------------------------------------- tasks in requests

  function StringsValue(ss: seq<string>): Value {
    Arr(seq(|ss|, i requires 0 <= i < |ss| => Str(ss[i])))
  }

  function BindValue(b: BindRule): Value {
    Obj(Labelled(BIND_KEYS, [Str(b.inside), Str(b.outside), Number(b.flags)]))
  }

  function BindsValue(binds: seq<BindRule>): Value {
    Arr(seq(|binds|, i requires 0 <= i < |binds| => BindValue(binds[i])))
  }

  function RequestFields(t: Task): seq<Value> {
    [Number(t.timeLimitMs), Number(t.wallTimeLimitMs), Number(t.memoryLimitKb), Number(t.fsizeLimitKb),
     Number(t.maxFiles), Number(t.maxThreads), Bool(t.needIpc), Bool(t.useStandardBinds),
     Str(t.stdin), Str(t.stdout), Str(t.stderr), StringsValue(t.argv), StringsValue(t.env), BindsValue(t.binds)]
  }

  function RequestValue(t: Task): Value {
    Obj(Labelled(REQUEST_KEYS, RequestFields(t)))
  }

  /** What deserialize_request demands of the value; otherwise the worker dies. */
  predicate IsRequest(v: Value) {
    && GetInt64(v, "time_limit_ms").Some? && GetInt64(v, "wall_time_limit_ms").Some?
    && GetInt64(v, "memory_limit_kb").Some? && GetInt64(v, "fsize_limit_kb").Some?
    && GetInt(v, "max_files").Some? && GetInt(v, "max_threads").Some? && GetBool(v, "need_ipc").Some?
    && GetBool(v, "use_standard_binds").Some? && GetStream(v, "stdin").Some? && GetStream(v, "stdout").Some?
    && GetStream(v, "stderr").Some? && GetStrings(v, "argv").Some? && GetStrings(v, "env").Some?
    && GetBinds(v, "binds").Some?
  }

  function TaskIn(v: Value): Task
    requires IsRequest(v)
  {
    Task(GetInt64(v, "time_limit_ms").value, GetInt64(v, "wall_time_limit_ms").value,
         GetInt64(v, "memory_limit_kb").value, GetInt64(v, "fsize_limit_kb").value,
         GetInt(v, "max_files").value, GetInt(v, "max_threads").value, GetBool(v, "need_ipc").value,
         GetBool(v, "use_standard_binds").value, GetStream(v, "stdin").value, GetStream(v, "stdout").value,
         GetStream(v, "stderr").value, GetStrings(v, "argv").value, GetStrings(v, "env").value,
         GetBinds(v, "binds").value)
  }

  // ------------------------------------------------------ results in responses

  function ResponseFields(r: Results): seq<Value> {
    [Number(r.timeUsageMs), Number(r.timeUsageSysMs), Number(r.timeUsageUserMs), Number(r.wallTimeUsageMs),
     Number(r.memoryUsageKb), Bool(r.timeLimitExceeded), Bool(r.wallTimeLimitExceeded), Bool(r.exited),
     Number(r.exitCode), Bool(r.signaled), Number(r.termSignal), Bool(r.oomKilled), Bool(r.memoryLimitHit)]
  }

  function ResponseValue(r: Results): Value {
    Obj(Labelled(RESPONSE_KEYS, ResponseFields(r)))
  }

  /** What deserialize_response demands of the value. */
  predicate IsResponse(v: Value) {
    && GetInt64(v, "time_usage_ms").Some? && GetInt64(v, "time_usage_sys_ms").Some?
    && GetInt64(v, "time_usage_user_ms").Some? && GetInt64(v, "wall_time_usage_ms").Some?
    && GetInt64(v, "memory_usage_kb").Some? && GetBool(v, "time_limit_exceeded").Some?
    && GetBool(v, "wall_time_limit_exceeded").Some? && GetBool(v, "exited").Some?
    && GetInt(v, "exit_code").Some? && GetBool(v, "signaled").Some? && GetInt(v, "term_signal").Some?
    && GetBool(v, "oom_killed").Some? && GetBool(v, "memory_limit_hit").Some?
  }

  function ResultsIn(v: Value): Results
    requires IsResponse(v)
  {
    Results(GetInt64(v, "time_usage_ms").value, GetInt64(v, "time_usage_sys_ms").value,
            GetInt64(v, "time_usage_user_ms").value, GetInt64(v, "wall_time_usage_ms").value,
            GetInt64(v, "memory_usage_kb").value, GetBool(v, "time_limit_exceeded").value,
            GetBool(v, "wall_time_limit_exceeded").value, GetBool(v, "exited").value,
            GetInt(v, "exit_code").value, GetBool(v, "signaled").value, GetInt(v, "term_signal").value,
            GetBool(v, "oom_killed").value, GetBool(v, "memory_limit_hit").value)
  }

  datatype Kind = AnInt64 | AnInt | ABool

  predicate HasKind(v: Value, kind: Kind) {
    match kind
    case AnInt64 => IsInt64(v)
    case AnInt => IsInt(v)
    case ABool => v.Bool?
  }

  function KindOf(i: nat): Kind {
    if i < 5 then AnInt64 else if i == 8 || i == 10 then AnInt else ABool
  }

  /** Member number i of a response is there and has its type. */
  predicate Good(v: Value, i: nat)
    requires i < |RESPONSE_KEYS|
  {
    Has(v, RESPONSE_KEYS[i]) && HasKind(At(v, RESPONSE_KEYS[i]), KindOf(i))
  }

  /** Results with one field overwritten. */
  function WithField(r: Results, i: nat, x: Value): Results
    requires i < |RESPONSE_KEYS| && HasKind(x, KindOf(i))
  {
    match i
    case 0 => r.(timeUsageMs := x.n)
    case 1 => r.(timeUsageSysMs := x.n)
    case 2 => r.(timeUsageUserMs := x.n)
    case 3 => r.(wallTimeUsageMs := x.n)
    case 4 => r.(memoryUsageKb := x.n)
    case 5 => r.(timeLimitExceeded := x.b)
    case 6 => r.(wallTimeLimitExceeded := x.b)
    case 7 => r.(exited := x.b)
    case 8 => r.(exitCode := x.n)
    case 9 => r.(signaled := x.b)
    case 10 => r.(termSignal := x.n)
    case 11 => r.(oomKilled := x.b)
    case _ => r.(memoryLimitHit := x.b)
  }

  function Field(r: Results, i: nat): Value
    requires i < |RESPONSE_KEYS|
  {
    match i
    case 0 => Number(r.timeUsageMs)
    case 1 => Number(r.timeUsageSysMs)
    case 2 => Number(r.timeUsageUserMs)
    case 3 => Number(r.wallTimeUsageMs)
    case 4 => Number(r.memoryUsageKb)
    case 5 => Bool(r.timeLimitExceeded)
    case 6 => Bool(r.wallTimeLimitExceeded)
    case 7 => Bool(r.exited)
    case 8 => Number(r.exitCode)
    case 9 => Bool(r.signaled)
    case 10 => Number(r.termSignal)
    case 11 => Bool(r.oomKilled)
    case _ => Bool(r.memoryLimitHit)
  }

  /** `late` is `early` with the first n members of the response read over it. */
  predicate ReadUpTo(v: Value, n: nat, early: Results, late: Results) {
    && n <= |RESPONSE_KEYS| && (forall i :: 0 <= i < n ==> Good(v, i))
    && forall i :: 0 <= i < |RESPONSE_KEYS| ==>
         Field(late, i) == if i < n then (assert Good(v, i); At(v, RESPONSE_KEYS[i])) else Field(early, i)
  }

  lemma WithTimeChangesOne(r: Results, i: nat, x: Value, j: nat)
    requires i < 3 && j < |RESPONSE_KEYS| && HasKind(x, KindOf(i))
    ensures Field(WithField(r, i, x), j) == if i == j then x else Field(r, j)
  {
  }

  lemma WithUsageChangesOne(r: Results, i: nat, x: Value, j: nat)
    requires 3 <= i < 5 && j < |RESPONSE_KEYS| && HasKind(x, KindOf(i))
    ensures Field(WithField(r, i, x), j) == if i == j then x else Field(r, j)
  {
  }

  lemma WithLimitChangesOne(r: Results, i: nat, x: Value, j: nat)
    requires 5 <= i < 7 && j < |RESPONSE_KEYS| && HasKind(x, KindOf(i))
    ensures Field(WithField(r, i, x), j) == if i == j then x else Field(r, j)
  {
  }

  lemma WithExitChangesOne(r: Results, i: nat, x: Value, j: nat)
    requires 7 <= i < 9 && j < |RESPONSE_KEYS| && HasKind(x, KindOf(i))
    ensures Field(WithField(r, i, x), j) == if i == j then x else Field(r, j)
  {
  }

  lemma WithSignalChangesOne(r: Results, i: nat, x: Value, j: nat)
    requires 9 <= i < 11 && j < |RESPONSE_KEYS| && HasKind(x, KindOf(i))
    ensures Field(WithField(r, i, x), j) == if i == j then x else Field(r, j)
  {
  }

  lemma WithMemoryChangesOne(r: Results, i: nat, x: Value, j: nat)
    requires 11 <= i < |RESPONSE_KEYS| && j < |RESPONSE_KEYS| && HasKind(x, KindOf(i))
    ensures Field(WithField(r, i, x), j) == if i == j then x else Field(r, j)
  {
  }

  lemma WithFieldChangesOne(r: Results, i: nat, x: Value, j: nat)
    requires i < |RESPONSE_KEYS| && j < |RESPONSE_KEYS| && HasKind(x, KindOf(i))
    ensures Field(WithField(r, i, x), j) == if i == j then x else Field(r, j)
  {
    hide WithField, Field, HasKind;
    if i < 3 {
      WithTimeChangesOne(r, i, x, j);
    } else if i < 5 {
      WithUsageChangesOne(r, i, x, j);
    } else if i < 7 {
      WithLimitChangesOne(r, i, x, j);
    } else if i < 9 {
      WithExitChangesOne(r, i, x, j);
    } else if i < 11 {
      WithSignalChangesOne(r, i, x, j);
    } else {
      WithMemoryChangesOne(r, i, x, j);
    }
  }

  lemma NothingRead(v: Value, r: Results)
    ensures ReadUpTo(v, 0, r, r)
  {
  }

  lemma OneMoreRead(v: Value, n: nat, early: Results, late: Results)
    requires ReadUpTo(v, n, early, late) && n < |RESPONSE_KEYS| && Good(v, n)
    ensures ReadUpTo(v, n + 1, early, WithField(late, n, At(v, RESPONSE_KEYS[n])))
  {
    hide WithField, Field, Has, At, HasKind;
    var x := At(v, RESPONSE_KEYS[n]);
    forall i | 0 <= i < |RESPONSE_KEYS|
      ensures Field(WithField(late, n, x), i) == if i == n then x else Field(late, i)
    {
      WithFieldChangesOne(late, n, x, i);
    }
  }

  // ------------------------------------------------------------ round trips

  /** The ranges of the fields' C++ types. */
  predicate TypedTask(t: Task) {
    && In64(t.timeLimitMs) && In64(t.wallTimeLimitMs) && In64(t.memoryLimitKb) && In64(t.fsizeLimitKb)
    && In32(t.maxFiles) && In32(t.maxThreads)
    && forall i :: 0 <= i < |t.binds| ==> In32(t.binds[i].flags)
  }

  predicate TypedResults(r: Results) {
    && In64(r.timeUsageMs) && In64(r.timeUsageSysMs) && In64(r.timeUsageUserMs)
    && In64(r.wallTimeUsageMs) && In64(r.memoryUsageKb)
    && In32(r.exitCode) && In32(r.termSignal)
  }

  predicate NulFreeTask(t: Task) {
    && NulFree(t.stdin) && NulFree(t.stdout) && NulFree(t.stderr) && AllNulFree(t.argv) && AllNulFree(t.env)
    && forall i :: 0 <= i < |t.binds| ==> NulFree(t.binds[i].inside) && NulFree(t.binds[i].outside)
  }

  lemma RequestKeysDistinct()
    ensures Distinct(REQUEST_KEYS)
  {
    assert "wall_time_limit_ms"[0] != "use_standard_binds"[0];
    assert "stdin"[0] != "binds"[0];
    assert "stdout"[3] != "stderr"[3];
  }

  lemma ResponseKeysDistinct()
    ensures Distinct(RESPONSE_KEYS)
  {
    assert "time_usage_user_ms"[0] != "wall_time_usage_ms"[0];
  }

  lemma StringsRoundTripIff(ss: seq<string>)
    ensures IsStrings(StringsValue(ss))
    ensures StringsIn(StringsValue(ss)) == ss <==> AllNulFree(ss)
  {
    var back := StringsIn(StringsValue(ss));
    forall i | 0 <= i < |ss|
      ensures back[i] == ss[i] <==> NulFree(ss[i])
    {
      CPrefixIsWholeIff(ss[i]);
    }
  }

  lemma BindRoundTripIff(b: BindRule)
    requires IsInt(Number(b.flags))
    ensures IsBind(BindValue(b))
    ensures BindIn(BindValue(b)) == b <==> NulFree(b.inside) && NulFree(b.outside)
  {
    var values := [Str(b.inside), Str(b.outside), Number(b.flags)];
    FindLabelled(BIND_KEYS, values, 0);
    FindLabelled(BIND_KEYS, values, 1);
    FindLabelled(BIND_KEYS, values, 2);
    CPrefixIsWholeIff(b.inside);
    CPrefixIsWholeIff(b.outside);
  }

  lemma BindsRoundTripIff(binds: seq<BindRule>)
    requires forall i :: 0 <= i < |binds| ==> IsInt(Number(binds[i].flags))
    ensures IsBinds(BindsValue(binds))
    ensures BindsIn(BindsValue(binds)) == binds <==>
            forall i :: 0 <= i < |binds| ==> NulFree(binds[i].inside) && NulFree(binds[i].outside)
  {
    forall i | 0 <= i < |binds|
      ensures IsBind(BindValue(binds[i]))
      ensures BindIn(BindValue(binds[i])) == binds[i] <==> NulFree(binds[i].inside) && NulFree(binds[i].outside)
    {
      BindRoundTripIff(binds[i]);
    }
    var back := BindsIn(BindsValue(binds));
    assert forall i :: 0 <= i < |binds| ==> back[i] == BindIn(BindValue(binds[i]));
  }

  lemma RequestFieldsFound(t: Task, i: nat)
    requires i < |REQUEST_KEYS|
    ensures Has(RequestValue(t), REQUEST_KEYS[i]) && At(RequestValue(t), REQUEST_KEYS[i]) == RequestFields(t)[i]
  {
    RequestKeysDistinct();
    FindLabelled(REQUEST_KEYS, RequestFields(t), i);
  }

  lemma ResponseFieldsFound(r: Results, i: nat)
    requires i < |RESPONSE_KEYS|
    ensures Has(ResponseValue(r), RESPONSE_KEYS[i]) && At(ResponseValue(r), RESPONSE_KEYS[i]) == ResponseFields(r)[i]
  {
    ResponseKeysDistinct();
    FindLabelled(RESPONSE_KEYS, ResponseFields(r), i);
  }

  lemma RequestNumbersFound(t: Task)
    requires TypedTask(t)
    ensures GetInt64(RequestValue(t), "time_limit_ms") == Some(t.timeLimitMs)
    ensures GetInt64(RequestValue(t), "wall_time_limit_ms") == Some(t.wallTimeLimitMs)
    ensures GetInt64(RequestValue(t), "memory_limit_kb") == Some(t.memoryLimitKb)
    ensures GetInt64(RequestValue(t), "fsize_limit_kb") == Some(t.fsizeLimitKb)
    ensures GetInt(RequestValue(t), "max_files") == Some(t.maxFiles)
    ensures GetInt(RequestValue(t), "max_threads") == Some(t.maxThreads)
    ensures GetBool(RequestValue(t), "need_ipc") == Some(t.needIpc)
    ensures GetBool(RequestValue(t), "use_standard_binds") == Some(t.useStandardBinds)
  {
    hide Find, Labelled, RequestValue;
    RequestFieldsFound(t, 0);
    RequestFieldsFound(t, 1);
    RequestFieldsFound(t, 2);
    RequestFieldsFound(t, 3);
    RequestFieldsFound(t, 4);
    RequestFieldsFound(t, 5);
    RequestFieldsFound(t, 6);
    RequestFieldsFound(t, 7);
  }

  lemma RequestStringsFound(t: Task)
    requires TypedTask(t)
    ensures IsStrings(StringsValue(t.argv)) && IsStrings(StringsValue(t.env)) && IsBinds(BindsValue(t.binds))
    ensures GetStream(RequestValue(t), "stdin") == Some(CPrefix(t.stdin))
    ensures GetStream(RequestValue(t), "stdout") == Some(CPrefix(t.stdout))
    ensures GetStream(RequestValue(t), "stderr") == Some(CPrefix(t.stderr))
    ensures GetStrings(RequestValue(t), "argv") == Some(StringsIn(StringsValue(t.argv)))
    ensures GetStrings(RequestValue(t), "env") == Some(StringsIn(StringsValue(t.env)))
    ensures GetBinds(RequestValue(t), "binds") == Some(BindsIn(BindsValue(t.binds)))
  {
    hide Find, Labelled, RequestValue, CPrefix, StringsValue, BindsValue, IsStrings, IsBinds, StringsIn, BindsIn;
    RequestFieldsFound(t, 8);
    RequestFieldsFound(t, 9);
    RequestFieldsFound(t, 10);
    RequestFieldsFound(t, 11);
    RequestFieldsFound(t, 12);
    RequestFieldsFound(t, 13);
    StringsRoundTripIff(t.argv);
    StringsRoundTripIff(t.env);
    BindsRoundTripIff(t.binds);
  }

  /** A task's parameters cross the request unchanged exactly if no string of theirs
      contains a NUL; the numbers always do. */
  lemma RequestRoundTripIff(t: Task)
    requires TypedTask(t)
    ensures IsRequest(RequestValue(t))
    ensures TaskIn(RequestValue(t)) == t <==> NulFreeTask(t)
    ensures RequestSays(RequestValue(t), t) <==> NulFreeTask(t)
  {
    hide RequestSays;
    RequestMeans(RequestValue(t), t);
    hide GetInt64, GetInt, GetBool, GetStream, GetStrings, GetBinds, RequestValue, CPrefix;
    hide IsStrings, IsBinds, StringsIn, BindsIn, StringsValue, BindsValue;
    RequestNumbersFound(t);
    RequestStringsFound(t);
    StringsRoundTripIff(t.argv);
    StringsRoundTripIff(t.env);
    BindsRoundTripIff(t.binds);
    CPrefixIsWholeIff(t.stdin);
    CPrefixIsWholeIff(t.stdout);
    CPrefixIsWholeIff(t.stderr);
  }

  lemma UsageFound(r: Results)
    requires TypedResults(r)
    ensures GetInt64(ResponseValue(r), "time_usage_ms") == Some(r.timeUsageMs)
    ensures GetInt64(ResponseValue(r), "time_usage_sys_ms") == Some(r.timeUsageSysMs)
    ensures GetInt64(ResponseValue(r), "time_usage_user_ms") == Some(r.timeUsageUserMs)
    ensures GetInt64(ResponseValue(r), "wall_time_usage_ms") == Some(r.wallTimeUsageMs)
    ensures GetInt64(ResponseValue(r), "memory_usage_kb") == Some(r.memoryUsageKb)
  {
    hide Find, Labelled, ResponseValue;
    ResponseFieldsFound(r, 0);
    ResponseFieldsFound(r, 1);
    ResponseFieldsFound(r, 2);
    ResponseFieldsFound(r, 3);
    ResponseFieldsFound(r, 4);
  }

  lemma EndFound(r: Results)
    requires TypedResults(r)
    ensures GetBool(ResponseValue(r), "time_limit_exceeded") == Some(r.timeLimitExceeded)
    ensures GetBool(ResponseValue(r), "wall_time_limit_exceeded") == Some(r.wallTimeLimitExceeded)
    ensures GetBool(ResponseValue(r), "exited") == Some(r.exited)
    ensures GetInt(ResponseValue(r), "exit_code") == Some(r.exitCode)
    ensures GetBool(ResponseValue(r), "signaled") == Some(r.signaled)
    ensures GetInt(ResponseValue(r), "term_signal") == Some(r.termSignal)
    ensures GetBool(ResponseValue(r), "oom_killed") == Some(r.oomKilled)
    ensures GetBool(ResponseValue(r), "memory_limit_hit") == Some(r.memoryLimitHit)
  {
    hide Find, Labelled, ResponseValue;
    ResponseFieldsFound(r, 5);
    ResponseFieldsFound(r, 6);
    ResponseFieldsFound(r, 7);
    ResponseFieldsFound(r, 8);
    ResponseFieldsFound(r, 9);
    ResponseFieldsFound(r, 10);
    ResponseFieldsFound(r, 11);
    ResponseFieldsFound(r, 12);
  }

  /** All results cross the response unchanged. */
  lemma ResponseRoundTrip(r: Results)
    requires TypedResults(r)
    ensures IsResponse(ResponseValue(r)) && ResultsIn(ResponseValue(r)) == r && ResponseSays(ResponseValue(r), r)
  {
    hide GetInt64, GetInt, GetBool, ResponseValue, ResponseSays;
    ResponseMeans(ResponseValue(r), r);
    UsageFound(r);
    EndFound(r);
  }

  lemma UsageGood(v: Value)
    ensures Good(v, 0) <==> GetInt64(v, "time_usage_ms").Some?
    ensures Good(v, 1) <==> GetInt64(v, "time_usage_sys_ms").Some?
    ensures Good(v, 2) <==> GetInt64(v, "time_usage_user_ms").Some?
    ensures Good(v, 3) <==> GetInt64(v, "wall_time_usage_ms").Some?
    ensures Good(v, 4) <==> GetInt64(v, "memory_usage_kb").Some?
  {
    hide Has, At;
    assert RESPONSE_KEYS[0] == "time_usage_ms" && RESPONSE_KEYS[1] == "time_usage_sys_ms" &&
        RESPONSE_KEYS[2] == "time_usage_user_ms";
    assert RESPONSE_KEYS[3] == "wall_time_usage_ms" && RESPONSE_KEYS[4] == "memory_usage_kb";
  }

  lemma EndGood(v: Value)
    ensures Good(v, 5) <==> GetBool(v, "time_limit_exceeded").Some?
    ensures Good(v, 6) <==> GetBool(v, "wall_time_limit_exceeded").Some?
    ensures Good(v, 7) <==> GetBool(v, "exited").Some?
    ensures Good(v, 8) <==> GetInt(v, "exit_code").Some?
    ensures Good(v, 9) <==> GetBool(v, "signaled").Some?
    ensures Good(v, 10) <==> GetInt(v, "term_signal").Some?
    ensures Good(v, 11) <==> GetBool(v, "oom_killed").Some?
    ensures Good(v, 12) <==> GetBool(v, "memory_limit_hit").Some?
  {
    hide Has, At;
    assert RESPONSE_KEYS[5] == "time_limit_exceeded" && RESPONSE_KEYS[6] == "wall_time_limit_exceeded" &&
        RESPONSE_KEYS[7] == "exited";
    assert RESPONSE_KEYS[8] == "exit_code" && RESPONSE_KEYS[9] == "signaled" && RESPONSE_KEYS[10] == "term_signal";
    assert RESPONSE_KEYS[11] == "oom_killed" && RESPONSE_KEYS[12] == "memory_limit_hit";
  }

  /** A value is a response exactly if every one of its members is good. */
  lemma AllGoodIff(v: Value)
    ensures IsResponse(v) <==> forall i :: 0 <= i < |RESPONSE_KEYS| ==> Good(v, i)
  {
    hide Good, GetInt64, GetInt, GetBool;
    UsageGood(v);
    EndGood(v);
    if IsResponse(v) {
      forall i | 0 <= i < |RESPONSE_KEYS| ensures Good(v, i) {
        assert i == 0 || i == 1 || i == 2 || i == 3 || i == 4 || i == 5 || i == 6
            || i == 7 || i == 8 || i == 9 || i == 10 || i == 11 || i == 12;
      }
    }
  }

  /** When all members have been read over them, nothing of the old results is left. */
  lemma AllRead(v: Value, early: Results, late: Results)
    requires ReadUpTo(v, |RESPONSE_KEYS|, early, late)
    ensures IsResponse(v) && late == ResultsIn(v)
  {
    hide Has, At, IsInt64, IsInt;
    AllGoodIff(v);
    assert RESPONSE_KEYS[0] == "time_usage_ms" && RESPONSE_KEYS[1] == "time_usage_sys_ms" &&
        RESPONSE_KEYS[2] == "time_usage_user_ms";
    assert RESPONSE_KEYS[3] == "wall_time_usage_ms" && RESPONSE_KEYS[4] == "memory_usage_kb" &&
        RESPONSE_KEYS[5] == "time_limit_exceeded";
    assert RESPONSE_KEYS[6] == "wall_time_limit_exceeded" && RESPONSE_KEYS[7] == "exited" &&
        RESPONSE_KEYS[8] == "exit_code";
    assert RESPONSE_KEYS[9] == "signaled" && RESPONSE_KEYS[10] == "term_signal" &&
        RESPONSE_KEYS[11] == "oom_killed" && RESPONSE_KEYS[12] == "memory_limit_hit";
  }

  // -------------------------------------------- what a whole value says

  /** The value is a request for `t`: every member is there, in its type and width, and
      says what the task holds. */
  predicate RequestSays(v: Value, t: Task) {
    && v.Obj?
    && SaysInt64(v.members, "time_limit_ms", t.timeLimitMs)
    && SaysInt64(v.members, "wall_time_limit_ms", t.wallTimeLimitMs)
    && SaysInt64(v.members, "memory_limit_kb", t.memoryLimitKb)
    && SaysInt64(v.members, "fsize_limit_kb", t.fsizeLimitKb)
    && SaysInt(v.members, "max_files", t.maxFiles) && SaysInt(v.members, "max_threads", t.maxThreads)
    && SaysBool(v.members, "need_ipc", t.needIpc)
    && SaysBool(v.members, "use_standard_binds", t.useStandardBinds)
    && SaysStream(v.members, "stdin", t.stdin) && SaysStream(v.members, "stdout", t.stdout)
    && SaysStream(v.members, "stderr", t.stderr)
    && SaysStrings(v.members, "argv", t.argv) && SaysStrings(v.members, "env", t.env)
    && SaysBinds(v.members, "binds", t.binds)
  }

  /** The value is a response with `r`. */
  predicate ResponseSays(v: Value, r: Results) {
    && v.Obj?
    && SaysInt64(v.members, "time_usage_ms", r.timeUsageMs)
    && SaysInt64(v.members, "time_usage_sys_ms", r.timeUsageSysMs)
    && SaysInt64(v.members, "time_usage_user_ms", r.timeUsageUserMs)
    && SaysInt64(v.members, "wall_time_usage_ms", r.wallTimeUsageMs)
    && SaysInt64(v.members, "memory_usage_kb", r.memoryUsageKb)
    && SaysBool(v.members, "time_limit_exceeded", r.timeLimitExceeded)
    && SaysBool(v.members, "wall_time_limit_exceeded", r.wallTimeLimitExceeded)
    && SaysBool(v.members, "exited", r.exited) && SaysInt(v.members, "exit_code", r.exitCode)
    && SaysBool(v.members, "signaled", r.signaled) && SaysInt(v.members, "term_signal", r.termSignal)
    && SaysBool(v.members, "oom_killed", r.oomKilled) && SaysBool(v.members, "memory_limit_hit", r.memoryLimitHit)
  }

  lemma NumbersMean(v: Value, t: Task)
    ensures (&& GetInt64(v, "time_limit_ms") == Some(t.timeLimitMs)
             && GetInt64(v, "wall_time_limit_ms") == Some(t.wallTimeLimitMs)
             && GetInt64(v, "memory_limit_kb") == Some(t.memoryLimitKb)
             && GetInt64(v, "fsize_limit_kb") == Some(t.fsizeLimitKb)
             && GetInt(v, "max_files") == Some(t.maxFiles) && GetInt(v, "max_threads") == Some(t.maxThreads)
             && GetBool(v, "need_ipc") == Some(t.needIpc)
             && GetBool(v, "use_standard_binds") == Some(t.useStandardBinds)) <==>
            (&& v.Obj?
             && SaysInt64(v.members, "time_limit_ms", t.timeLimitMs)
             && SaysInt64(v.members, "wall_time_limit_ms", t.wallTimeLimitMs)
             && SaysInt64(v.members, "memory_limit_kb", t.memoryLimitKb)
             && SaysInt64(v.members, "fsize_limit_kb", t.fsizeLimitKb)
             && SaysInt(v.members, "max_files", t.maxFiles) && SaysInt(v.members, "max_threads", t.maxThreads)
             && SaysBool(v.members, "need_ipc", t.needIpc)
             && SaysBool(v.members, "use_standard_binds", t.useStandardBinds))
  {
    hide GetInt64, GetInt, GetBool, SaysInt64, SaysInt, SaysBool;
    GetInt64Iff(v, "time_limit_ms", t.timeLimitMs);
    GetInt64Iff(v, "wall_time_limit_ms", t.wallTimeLimitMs);
    GetInt64Iff(v, "memory_limit_kb", t.memoryLimitKb);
    GetInt64Iff(v, "fsize_limit_kb", t.fsizeLimitKb);
    GetIntIff(v, "max_files", t.maxFiles);
    GetIntIff(v, "max_threads", t.maxThreads);
    GetBoolIff(v, "need_ipc", t.needIpc);
    GetBoolIff(v, "use_standard_binds", t.useStandardBinds);
  }

  /** What deserialize_request accepts, and what it makes of it. */
  lemma RequestMeans(v: Value, t: Task)
    ensures IsRequest(v) && TaskIn(v) == t <==> RequestSays(v, t)
  {
    hide GetInt64, GetInt, GetBool, GetStream, GetStrings, GetBinds;
    hide SaysInt64, SaysInt, SaysBool, SaysStream, SaysStrings, SaysBinds;
    NumbersMean(v, t);
    GetStreamIff(v, "stdin", t.stdin);
    GetStreamIff(v, "stdout", t.stdout);
    GetStreamIff(v, "stderr", t.stderr);
    GetStringsIff(v, "argv", t.argv);
    GetStringsIff(v, "env", t.env);
    GetBindsIff(v, "binds", t.binds);
  }

  /** What deserialize_response accepts, and what it makes of it. */
  lemma ResponseMeans(v: Value, r: Results)
    ensures IsResponse(v) && ResultsIn(v) == r <==> ResponseSays(v, r)
  {
    hide GetInt64, GetInt, GetBool, SaysInt64, SaysInt, SaysBool;
    GetInt64Iff(v, "time_usage_ms", r.timeUsageMs);
    GetInt64Iff(v, "time_usage_sys_ms", r.timeUsageSysMs);
    GetInt64Iff(v, "time_usage_user_ms", r.timeUsageUserMs);
    GetInt64Iff(v, "wall_time_usage_ms", r.wallTimeUsageMs);
    GetInt64Iff(v, "memory_usage_kb", r.memoryUsageKb);
    GetBoolIff(v, "time_limit_exceeded", r.timeLimitExceeded);
    GetBoolIff(v, "wall_time_limit_exceeded", r.wallTimeLimitExceeded);
    GetBoolIff(v, "exited", r.exited);
    GetIntIff(v, "exit_code", r.exitCode);
    GetBoolIff(v, "signaled", r.signaled);
    GetIntIff(v, "term_signal", r.termSignal);
    GetBoolIff(v, "oom_killed", r.oomKilled);
    GetBoolIff(v, "memory_limit_hit", r.memoryLimitHit);
  }

  /** The readings are 64-bit numbers, exit code and signal 32-bit ones. */
  predicate ObservationFits(o: Observation) {
    && -9223372036854775808 <= o.time <= 9223372036854775807 && -9223372036854775808 <= o.sys <= 9223372036854775807
    && -9223372036854775808 <= o.user <= 9223372036854775807 && -9223372036854775808 <= o.wall <= 9223372036854775807
    && -9223372036854775808 <= o.memory <= 9223372036854775807
    && match o.status
       case None => true
       case Some(Exited(code)) => -2147483648 <= code <= 2147483647
       case Some(Signaled(sig)) => -2147483648 <= sig <= 2147483647
  }

  lemma JudgedFits(t: Task, o: Observation)
    requires ObservationFits(o)
    ensures TypedResults(Judge(t, o)) && TypedResults(BLANK)
  {
  }

  /** Every verdict crosses: a run that was signalled or stopped, with its exit code of
      -1, no less than one that exited; and so do results that are still blank. */
  lemma VerdictsCross(t: Task, o: Observation)
    requires ObservationFits(o)
    ensures IsResponse(ResponseValue(Judge(t, o))) && ResultsIn(ResponseValue(Judge(t, o))) == Judge(t, o)
    ensures ResponseSays(ResponseValue(Judge(t, o)), Judge(t, o))
    ensures IsResponse(ResponseValue(BLANK)) && ResultsIn(ResponseValue(BLANK)) == BLANK
  {
    hide IsResponse, ResultsIn, ResponseValue, Judge, ResponseSays, TypedResults;
    JudgedFits(t, o);
    ResponseRoundTrip(Judge(t, o));
    ResponseRoundTrip(BLANK);
  }
}
