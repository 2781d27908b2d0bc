/** How the standard streams of a slave get to be what its task names: get_pipe
    and close_pipes in src/worker.cpp, the stream part of set_task, and open_files,
    dup2_fds and close_all_fds in src/container.cpp. */
module Wiring {
  import opened TaskModel
  import opened CStrings

  /** What a descriptor refers to. `serial` and `pipe` identify the opening, so that
      two descriptors are equal only if one was made from the other. */
  datatype File =
    | OpenFile(name: string, write: bool, serial: nat)
    | PipeFile(pipe: nat, write: bool)
    | Other(tag: int)

  type Table = map<int, File>

  const STDIN := 0
  const STDOUT := 1
  const STDERR := 2
  const DEV_NULL := "/dev/null"

  predicate HasStandard(files: Table) {
    STDIN in files && STDOUT in files && STDERR in files
  }

  /** The lowest descriptor not in use, which is the one the kernel hands out. */
  method LowestFree(files: Table) returns (fd: int)
    ensures fd >= 0 && fd !in files && forall k :: 0 <= k < fd ==> k in files
  {
    fd := 0;
    ghost var left := files.Keys;
    while fd in files
      invariant fd >= 0 && forall k :: 0 <= k < fd ==> k in files
      invariant forall k :: k in left <==> k in files && !(0 <= k < fd)
      decreases left
    {
      left := left - {fd};
      fd := fd + 1;
    }
  }

  method AnyOf<T(==)>(s: set<T>) returns (x: T)
    requires s != {}
    ensures x in s
  {
    x :| x in s;
  }

  // -------------------------------------------------------- the worker's side

  /** IOStream of src/task_data.h: a descriptor, or a file to be opened. */
  datatype Stream = Stream(fd: int, filename: string)
  datatype Streams = Streams(stdin: Stream, stdout: Stream, stderr: Stream)

  type Pipes = map<string, (int, int)>

  /** `late` has every entry of `early`, unchanged. */
  ghost predicate Extends<K, V>(late: map<K, V>, early: map<K, V>) {
    forall k :: k in early ==> k in late && late[k] == early[k]
  }

  /** Every pipe has two ends of one pipe, open for reading and for writing, and no
      descriptor belongs to two ends. */
  ghost predicate PipesOpen(pipes: Pipes, files: Table) {
    && (forall p :: p in pipes ==>
          && pipes[p].0 > STDERR && pipes[p].1 > STDERR
          && pipes[p].0 in files && pipes[p].1 in files
          && files[pipes[p].0].PipeFile? && files[pipes[p].1] == PipeFile(files[pipes[p].0].pipe, true)
          && !files[pipes[p].0].write)
    && (forall p, q :: p in pipes && q in pipes && p != q ==>
          files[pipes[p].0].pipe != files[pipes[q].0].pipe)
  }

  function EndsOf(pipes: Pipes): set<int> {
    (set p | p in pipes :: pipes[p].0) + (set p | p in pipes :: pipes[p].1)
  }

  lemma WithoutEnds(before: Table, pipes: Pipes, after: Table)
    requires Extends(before, after)
    requires forall p :: p in pipes ==> pipes[p].0 !in after && pipes[p].1 !in after
    requires forall fd :: fd in before && fd !in after ==> fd in EndsOf(pipes)
    ensures after == before - EndsOf(pipes)
  {
    forall fd ensures fd in after <==> fd in before - EndsOf(pipes) {
    }
  }

  lemma ClosingOneKeepsTheOthers(pipes: Pipes, files: Table, name: string)
    requires HasStandard(files) && PipesOpen(pipes, files) && name in pipes
    ensures pipes[name].0 in files && pipes[name].1 in files - {pipes[name].0}
    ensures HasStandard(files - {pipes[name].0} - {pipes[name].1})
    ensures PipesOpen(pipes - {name}, files - {pipes[name].0} - {pipes[name].1})
  {
  }

  /** The name of a pipe may be as long as it likes; that of a file has to fit. */
  predicate NameFits(stream: string) {
    (stream != "" && stream[0] == '@') || |stream| <= 4096
  }

  /** What a stream's name says, to the worker: the null device, the file of that name,
      or the end for reading or writing of the pipe whose name follows the '@'. */
  predicate StreamIs(s: Stream, stream: string, write: bool, pipes: Pipes) {
    if stream == "" then s == Stream(-1, "/dev/null")
    else if stream[0] != '@' then s == Stream(-1, stream)
    else stream[1..] in pipes && s == Stream(if write then pipes[stream[1..]].1 else pipes[stream[1..]].0, "")
  }

  /** All three of a task, with the alias on stderr. */
  predicate StreamsAre(s: Streams, t: Task, pipes: Pipes) {
    && StreamIs(s.stdin, t.stdin, false, pipes) && StreamIs(s.stdout, t.stdout, true, pipes)
    && (if t.stderr == "@_stdout" then s.stderr == Stream(1, "") else StreamIs(s.stderr, t.stderr, true, pipes))
  }

  /** What set_task stores for a stream that is read from, or written to. */
  function StreamFor(stream: string, write: bool, isStderr: bool, pipes: Pipes): Stream
    requires StreamPipes(stream, isStderr) <= pipes.Keys
  {
    match PipeOf(stream)
    case Some(p) =>
      if isStderr && p == STDOUT_ALIAS then Stream(STDOUT, "")
      else assert p in StreamPipes(stream, isStderr); Stream(if write then pipes[p].1 else pipes[p].0, "")
    case None => Stream(-1, if stream == "" then DEV_NULL else stream)
  }

  function StreamsFor(t: Task, pipes: Pipes): Streams
    requires PipeNames(t) <= pipes.Keys
  {
    Streams(StreamFor(t.stdin, false, false, pipes), StreamFor(t.stdout, true, false, pipes),
            StreamFor(t.stderr, true, true, pipes))
  }

  lemma StreamForMeans(stream: string, write: bool, isStderr: bool, pipes: Pipes)
    requires StreamPipes(stream, isStderr) <= pipes.Keys
    ensures if isStderr && stream == "@_stdout" then StreamFor(stream, write, isStderr, pipes) == Stream(1, "")
            else StreamIs(StreamFor(stream, write, isStderr, pipes), stream, write, pipes)
  {
    PipeOfIff(stream, "_stdout");
    assert "@" + "_stdout" == "@_stdout";
    if stream != "" && stream[0] == '@' {
      StreamPipesIff(stream, isStderr, stream[1..]);
    }
  }

  /** What is behind an '@' is the name of a pipe, but for the alias. */
  lemma StreamNamed(stream: string)
    ensures stream != "" && stream[0] == '@' ==> PipeOf(stream) == Some(stream[1..])
    ensures stream == "@_stdout" <==> PipeOf(stream) == Some("_stdout")
  {
    PipeOfIff(stream, "_stdout");
    assert "@" + "_stdout" == "@_stdout";
  }

  lemma StreamsForMeans(t: Task, pipes: Pipes)
    requires PipeNames(t) <= pipes.Keys
    ensures StreamsAre(StreamsFor(t, pipes), t, pipes)
  {
    hide StreamIs, StreamFor, StreamPipes;
    StreamForMeans(t.stdin, false, false, pipes);
    StreamForMeans(t.stdout, true, false, pipes);
    StreamForMeans(t.stderr, true, true, pipes);
  }

  /** Two streams on pipes, whoever's they are and whichever way they go, meet in one
      pipe exactly if the names behind their '@' are the same. */
  lemma StreamsMeetIff(a: Stream, p: string, writeA: bool, b: Stream, q: string, writeB: bool, pipes: Pipes,
      files: Table)
    requires PipesOpen(pipes, files) && StreamIs(a, "@" + p, writeA, pipes) && StreamIs(b, "@" + q, writeB, pipes)
    ensures a.fd in files && b.fd in files && files[a.fd].PipeFile? && files[b.fd].PipeFile?
    ensures files[a.fd].write == writeA && files[b.fd].write == writeB
    ensures files[a.fd].pipe == files[b.fd].pipe <==> p == q
  {
    PipeOfIff("@" + p, p);
    PipeOfIff("@" + q, q);
  }

  lemma StreamStays(stream: string, write: bool, isStderr: bool, early: Pipes, late: Pipes)
    requires Extends(late, early) && StreamPipes(stream, isStderr) <= early.Keys
    ensures StreamPipes(stream, isStderr) <= late.Keys
    ensures StreamFor(stream, write, isStderr, late) == StreamFor(stream, write, isStderr, early)
  {
  }

  lemma StreamsStay(t: Task, early: Pipes, late: Pipes)
    requires Extends(late, early) && PipeNames(t) <= early.Keys
    ensures PipeNames(t) <= late.Keys && StreamsFor(t, late) == StreamsFor(t, early)
  {
    StreamStays(t.stdin, false, false, early, late);
    StreamStays(t.stdout, true, false, early, late);
    StreamStays(t.stderr, true, true, early, late);
  }

  predicate TaskNamesFit(t: Task) {
    NameFits(t.stdin) && NameFits(t.stdout) && NameFits(t.stderr)
  }

  /** The worker's descriptor table, which its containers share, and its pipes. */
  class WorkerPipes {
    var files: Table
    var pipes: Pipes
    var created: nat

    ghost predicate Valid()
      reads this
    {
      && HasStandard(files) && PipesOpen(pipes, files)
      && forall fd :: fd in files && files[fd].PipeFile? ==> files[fd].pipe < created
    }

    constructor (files: Table)
      requires HasStandard(files) && forall fd :: fd in files ==> !files[fd].PipeFile?
      ensures Valid() && this.files == files && pipes == map[]
    {
      this.files, pipes, created := files, map[], 0;
    }

    /** pipe() on the first use of a name, the same two ends from then on. */
    method GetPipe(name: string) returns (ends: (int, int))
      requires Valid()
      modifies this
      ensures Valid() && pipes.Keys == old(pipes).Keys + {name} && pipes[name] == ends
      ensures Extends(pipes, old(pipes)) && Extends(files, old(files))
      ensures files.Keys == old(files).Keys + {ends.0, ends.1}
      ensures name in old(pipes) ==> files == old(files)
      ensures name !in old(pipes) ==> ends.0 !in old(files) && ends.1 !in old(files)
    {
      if name !in pipes {
        var r := LowestFree(files);
        assert r > STDERR;
        var files1 := files[r := PipeFile(created, false)];
        var w := LowestFree(files1);
        files := files1[w := PipeFile(created, true)];
        pipes := pipes[name := (r, w)];
        created := created + 1;
      }
      ends := pipes[name];
    }

    /** The stream part of set_task for one stream. None: the name is too long. */
    method SetStream(stream: string, write: bool, isStderr: bool) returns (r: Option<Stream>)
      requires Valid() && (isStderr ==> write)
      modifies this
      ensures Valid() && (r.None? <==> !NameFits(stream))
      ensures Extends(pipes, old(pipes)) && Extends(files, old(files))
      ensures r.Some? ==> pipes.Keys == old(pipes).Keys + StreamPipes(stream, isStderr)
      ensures r.Some? ==> r.value == StreamFor(stream, write, isStderr, pipes)
      ensures r.Some? ==> if isStderr && stream == "@_stdout" then r.value == Stream(1, "")
                          else StreamIs(r.value, stream, write, pipes)
    {
      StreamNamed(stream);
      var fd, filename := -1, "";
      if stream == "" {
        filename := DEV_NULL;
      } else if stream[0] == '@' {
        var name := stream[1..];
        if isStderr && name == STDOUT_ALIAS {
          fd := STDOUT;
        } else {
          var ends := GetPipe(name);
          fd := if write then ends.1 else ends.0;
        }
      } else {
        if |stream| > PATH_MAX {
          return None;
        }
        filename := stream;
      }
      return Some(Stream(fd, filename));
    }

    method SetStreams(t: Task) returns (r: Option<Streams>)
      requires Valid()
      modifies this
      ensures Valid() && (r.None? <==> !TaskNamesFit(t))
      ensures Extends(pipes, old(pipes)) && Extends(files, old(files))
      ensures r.Some? ==> pipes.Keys == old(pipes).Keys + PipeNames(t) && r.value == StreamsFor(t, pipes)
    {
      hide PipesOpen, HasStandard, StreamFor, StreamPipes, NameFits;
      var stdin := SetStream(t.stdin, false, false);
      if stdin.None? { return None; }
      ghost var pipes0 := pipes;
      var stdout := SetStream(t.stdout, true, false);
      if stdout.None? { return None; }
      ghost var pipes1 := pipes;
      var stderr := SetStream(t.stderr, true, true);
      if stderr.None? { return None; }
      StreamStays(t.stdin, false, false, pipes0, pipes);
      StreamStays(t.stdout, true, false, pipes1, pipes);
      return Some(Streams(stdin.value, stdout.value, stderr.value));
    }

    /** write_tasks: each task's streams, all of them in terms of the same pipes. */
    method WriteTasks(tasks: seq<Task>) returns (ok: bool, streams: seq<Streams>)
      requires Valid() && pipes == map[]
      modifies this
      ensures Valid() && (ok <==> forall i :: 0 <= i < |tasks| ==> TaskNamesFit(tasks[i]))
      ensures ok ==> pipes.Keys == Wanted(tasks) && |streams| == |tasks|
      ensures ok ==> forall i :: 0 <= i < |tasks| ==>
                PipeNames(tasks[i]) <= pipes.Keys && streams[i] == StreamsFor(tasks[i], pipes)
      ensures ok ==> forall i :: 0 <= i < |tasks| ==> StreamsAre(streams[i], tasks[i], pipes)
      ensures ok ==> forall p :: p in pipes <==> exists i :: 0 <= i < |tasks| && Names(tasks[i], p)
      ensures Extends(files, old(files))
    {
      hide PipesOpen, HasStandard, StreamsFor, StreamsAre, Names, Wanted, PipeNames, TaskNamesFit;
      streams := [];
      NothingIsWanted();
      assert tasks[..0] == [];
      for i := 0 to |tasks|
        invariant Valid() && |streams| == i && pipes.Keys == Wanted(tasks[..i]) && Extends(files, old(files))
        invariant forall k :: 0 <= k < i ==> TaskNamesFit(tasks[k])
        invariant forall k :: 0 <= k < i ==>
                    PipeNames(tasks[k]) <= pipes.Keys && streams[k] == StreamsFor(tasks[k], pipes)
      {
        ghost var early := pipes;
        var r := SetStreams(tasks[i]);
        if r.None? {
          return false, streams;
        }
        WantedOfPrefix(tasks, i);
        forall k | 0 <= k < i
          ensures PipeNames(tasks[k]) <= pipes.Keys && streams[k] == StreamsFor(tasks[k], pipes)
        {
          StreamsStay(tasks[k], early, pipes);
        }
        streams := streams + [r.value];
      }
      assert tasks[..|tasks|] == tasks;
      forall i | 0 <= i < |tasks| ensures StreamsAre(streams[i], tasks[i], pipes) {
        StreamsForMeans(tasks[i], pipes);
      }
      forall p ensures p in Wanted(tasks) <==> exists i :: 0 <= i < |tasks| && Names(tasks[i], p) {
        WantedIff(tasks, p);
      }
      return true, streams;
    }

    /** Closes both ends of every pipe. No descriptor is closed twice: each one that
        is closed is open at that moment. */
    method ClosePipes()
      requires Valid()
      modifies this
      ensures Valid() && pipes == map[] && files == old(files) - EndsOf(old(pipes))
    {
      hide PipesOpen, HasStandard;
      ghost var before, closed, all := files, {}, pipes;
      while pipes != map[]
        invariant HasStandard(files) && PipesOpen(pipes, files) && created == old(created)
        invariant forall fd :: fd in files && files[fd].PipeFile? ==> files[fd].pipe < created
        invariant closed !! pipes.Keys && closed + pipes.Keys == all.Keys
        invariant Extends(all, pipes) && Extends(before, files)
        invariant forall p :: p in closed ==> all[p].0 !in files && all[p].1 !in files
        invariant forall fd :: fd in before && fd !in files ==> fd in EndsOf(all)
        decreases pipes.Keys
      {
        var name :| name in pipes;
        var ends := pipes[name];
        ClosingOneKeepsTheOthers(pipes, files, name);
        assert ends.0 in files;
        files := files - {ends.0};
        assert ends.1 in files;
        files := files - {ends.1};
        pipes := pipes - {name};
        closed := closed + {name};
      }
      WithoutEnds(before, all, files);
    }
  }

  // --------------------------------------------------------- the slave's side

  /** The file a slave's stream is to be: the null device, a file, an end of the
      pipe its task names, or for stderr whatever stdout is. */
  ghost predicate Means(f: File, stream: string, write: bool, pipes: Pipes, workerFiles: Table) {
    if stream == "" then f.OpenFile? && f.write == write && f.name == "/dev/null"
    else if stream[0] != '@' then f.OpenFile? && f.write == write && f.name == CPrefix(stream)
    else
      && stream[1..] in pipes
      && var end := if write then pipes[stream[1..]].1 else pipes[stream[1..]].0;
         end in workerFiles && f == workerFiles[end]
  }

  /** The stream that was to be opened has been; one that was not is as before. */
  predicate OpenedAs(before: Stream, after: Stream, write: bool, files: Table) {
    if before.filename == "" then after == before
    else after.fd > STDERR && after.fd in files && files[after.fd].OpenFile?
         && files[after.fd].write == write && files[after.fd].name == CPrefix(before.filename)
  }

  /** Of an open stream: what it denotes is what its task named. */
  lemma OpenedMeans(stream: string, write: bool, isStderr: bool, after: Stream, pipes: Pipes, forked: Table,
      files: Table)
    requires StreamPipes(stream, isStderr) <= pipes.Keys && PipesOpen(pipes, forked) && Extends(files, forked)
    requires !(isStderr && PipeOf(stream) == Some(STDOUT_ALIAS))
    requires OpenedAs(StreamFor(stream, write, isStderr, pipes), after, write, files)
    ensures after.fd > STDERR && after.fd in files && Means(files[after.fd], stream, write, pipes, forked)
  {
    match PipeOf(stream)
    case Some(p) => assert p in StreamPipes(stream, isStderr);
    case None =>
  }

  predicate IsStandard(fd: int) {
    fd == STDIN || fd == STDOUT || fd == STDERR
  }

  function Keep(files: Table, kept: set<int>): Table {
    map fd | fd in files && (fd in kept || IsStandard(fd)) :: files[fd]
  }

  const NO_FD := -1

  function DupOne(files: Table, from: int, to: int): Option<Table> {
    if from == NO_FD then Some(files)
    else if from in files then Some(files[to := files[from]])
    else None
  }

  function DupAll(files: Table, s: Streams): Option<Table> {
    match DupOne(files, s.stdin.fd, STDIN)
    case None => None
    case Some(f1) =>
      match DupOne(f1, s.stdout.fd, STDOUT)
      case None => None
      case Some(f2) => DupOne(f2, s.stderr.fd, STDERR)
  }

  /** Whatever the streams are, afterwards 0 is the old stdin stream; 1 is the old
      stdout stream unless that was descriptor 0; and all else but 2 is untouched. */
  lemma DupAllMeans(files: Table, s: Streams)
    ensures DupAll(files, s).Some? <==>
              && (s.stdin.fd == NO_FD || s.stdin.fd in files)
              && (s.stdout.fd == NO_FD || s.stdout.fd in files || (s.stdout.fd == STDIN && s.stdin.fd != NO_FD))
              && (s.stderr.fd == NO_FD || s.stderr.fd in files || (s.stderr.fd == STDIN && s.stdin.fd != NO_FD)
                  || (s.stderr.fd == STDOUT && s.stdout.fd != NO_FD))
    ensures DupAll(files, s).Some? ==>
              var late := DupAll(files, s).value;
              && files.Keys <= late.Keys
              && (forall fd :: fd in late ==> IsStandard(fd) || (fd in files && late[fd] == files[fd]))
              && (s.stdin.fd in files && s.stdin.fd != NO_FD ==> late[STDIN] == files[s.stdin.fd])
              && (s.stdout.fd in files && s.stdout.fd != STDIN && s.stdout.fd != NO_FD ==>
                  late[STDOUT] == files[s.stdout.fd])
              && (s.stderr.fd in files && s.stderr.fd > STDERR ==> late[STDERR] == files[s.stderr.fd])
              && (s.stderr.fd == STDOUT ==> late[STDERR] == late[STDOUT])
  {
  }

  /** A forked copy of the worker's table, and the streams of the slave's task. */
  class SlaveFiles {
    var files: Table
    var streams: Streams
    var serials: nat

    constructor (files: Table, streams: Streams, serials: nat)
      ensures this.files == files && this.streams == streams && this.serials == serials
    {
      this.files, this.streams, this.serials := files, streams, serials;
    }

    /** open(): -1 if the kernel refuses. */
    method Open(name: string, write: bool, allowed: bool) returns (fd: int)
      requires HasStandard(files)
      modifies this`files, this`serials
      ensures HasStandard(files) && serials == old(serials) + 1
      ensures !allowed ==> fd == -1 && files == old(files)
      ensures allowed ==>
                && fd > STDERR && fd !in old(files)
                && files == old(files)[fd := OpenFile(CPrefix(name), write, old(serials))]
    {
      fd := -1;
      if allowed {
        fd := LowestFree(files);
        files := files[fd := OpenFile(CPrefix(name), write, serials)];
      }
      serials := serials + 1;
    }

    /** False if a file cannot be opened: the slave dies. */
    method OpenFiles(allowed: (string, bool) -> bool) returns (ok: bool)
      requires HasStandard(files)
      modifies this
      ensures HasStandard(files)
      ensures ok <==>
                && (old(streams.stdin.filename) != "" ==> allowed(old(streams.stdin.filename), false))
                && (old(streams.stdout.filename) != "" ==> allowed(old(streams.stdout.filename), true))
                && (old(streams.stderr.filename) != "" ==> allowed(old(streams.stderr.filename), true))
      ensures Extends(files, old(files))
      ensures ok ==>
                && OpenedAs(old(streams.stdin), streams.stdin, false, files)
                && OpenedAs(old(streams.stdout), streams.stdout, true, files)
                && OpenedAs(old(streams.stderr), streams.stderr, true, files)
      ensures forall fd :: fd in files && fd !in old(files) ==> files[fd].OpenFile? && files[fd].serial >= old(serials)
      ensures ok && old(streams.stdout.filename) != "" && old(streams.stderr.filename) != "" ==>
                files[streams.stdout.fd] != files[streams.stderr.fd]
    {
      if streams.stdin.filename != "" {
        var fd := Open(streams.stdin.filename, false, allowed(streams.stdin.filename, false));
        streams := streams.(stdin := streams.stdin.(fd := fd));
        if fd < 0 { return false; }
      }
      if streams.stdout.filename != "" {
        var fd := Open(streams.stdout.filename, true, allowed(streams.stdout.filename, true));
        streams := streams.(stdout := streams.stdout.(fd := fd));
        if fd < 0 { return false; }
      }
      if streams.stderr.filename != "" {
        var fd := Open(streams.stderr.filename, true, allowed(streams.stderr.filename, true));
        streams := streams.(stderr := streams.stderr.(fd := fd));
        if fd < 0 { return false; }
      }
      return true;
    }

    /** dup2(), unless there is no descriptor to copy. False if it is not open. */
    method Dup2(from: int, to: int) returns (ok: bool)
      modifies this`files
      ensures ok <==> from == NO_FD || from in old(files)
      ensures files == if from in old(files) && from != NO_FD then old(files)[to := old(files)[from]] else old(files)
    {
      if from == NO_FD {
        return true;
      }
      ok := from in files;
      if ok {
        files := files[to := files[from]];
      }
    }

    /** False if a descriptor is not open: the slave dies. In general a copy is made of
        what the ones before have left; streams that were opened, or that are the
        worker's pipe ends, are above the standard descriptors and do not interfere. */
    method Dup2Fds() returns (ok: bool)
      modifies this`files
      ensures ok <==> DupAll(old(files), streams).Some?
      ensures ok ==> files == DupAll(old(files), streams).value
    {
      ok := Dup2(streams.stdin.fd, STDIN);
      if ok { ok := Dup2(streams.stdout.fd, STDOUT); }
      if ok { ok := Dup2(streams.stderr.fd, STDERR); }
    }

    /** Closes everything listed in /proc/self/fd except the standard streams, the
        directory itself, and `kept` (the logger's and the cgroup descriptors); then
        the directory. The entries come in any order. */
    method CloseAllFds(kept: set<int>)
      modifies this`files
      ensures files == Keep(old(files), kept)
    {
      var dir := LowestFree(files);
      files := files[dir := Other(0)];
      ghost var before := files;
      var listed := files.Keys;
      while listed != {}
        invariant listed <= files.Keys && dir in files && Extends(before, files)
        invariant forall fd :: fd in before && (fd in kept || IsStandard(fd) || fd == dir) ==> fd in files
        invariant forall fd :: fd in files && fd !in listed ==> fd in kept || IsStandard(fd) || fd == dir
        decreases listed
      {
        var fd := AnyOf(listed);
        listed := listed - {fd};
        if !IsStandard(fd) && fd != dir && fd !in kept {
          assert fd in files;
          files := files - {fd};
        }
      }
      files := files - {dir};
      WhatIsLeft(old(files), dir, files, kept);
    }
  }

  lemma WhatIsLeft(before: Table, dir: int, after: Table, kept: set<int>)
    requires dir !in before && Extends(before, after)
    requires forall fd :: fd in before && (fd in kept || IsStandard(fd)) ==> fd in after
    requires forall fd :: fd in after ==> fd in kept || IsStandard(fd)
    ensures after == Keep(before, kept)
  {
    forall fd ensures fd in after <==> fd in Keep(before, kept) {
    }
  }

  /** Nothing to open, or the kernel opens it. */
  predicate CanOpen(stream: string, write: bool, allowed: (string, bool) -> bool) {
    if stream == "" then allowed("/dev/null", write) else stream[0] == '@' || allowed(stream, write)
  }

  lemma WhatIsOpened(t: Task, pipes: Pipes, allowed: (string, bool) -> bool)
    requires PipeNames(t) <= pipes.Keys
    ensures var streams := StreamsFor(t, pipes);
            && (CanOpen(t.stdin, false, allowed) <==>
                streams.stdin.filename == "" || allowed(streams.stdin.filename, false))
            && (CanOpen(t.stdout, true, allowed) <==>
                streams.stdout.filename == "" || allowed(streams.stdout.filename, true))
            && (CanOpen(t.stderr, true, allowed) <==>
                streams.stderr.filename == "" || allowed(streams.stderr.filename, true))
            && (PipeOf(t.stdout).None? ==> streams.stdout.filename != "")
            && (PipeOf(t.stderr).None? ==> streams.stderr.filename != "")
  {
  }

  lemma AliasStays(stream: string, after: Stream, pipes: Pipes, files: Table)
    requires PipeOf(stream) == Some(STDOUT_ALIAS) && StreamPipes(stream, true) <= pipes.Keys
    requires OpenedAs(StreamFor(stream, true, true, pipes), after, true, files)
    ensures after.fd == STDOUT
  {
  }

  /** A slave, from open_files to just before exec. Its table is the forked copy of
      the worker's with what it has opened since, which `kept` are part of. In the end
      descriptors 0, 1 and 2 are what its task names, stderr "@_stdout" is stdout
      itself, and of the worker's pipes it keeps only the ends it is wired to. */
  method WireSlave(t: Task, w: WorkerPipes, forked: Table, kept: set<int>, allowed: (string, bool) -> bool,
      serials: nat)
      returns (ok: bool, files: Table)
    requires w.Valid() && PipeNames(t) <= w.pipes.Keys && Extends(forked, w.files)
    requires forall fd :: fd in kept && fd in forked ==> !forked[fd].PipeFile?
    requires kept !! {STDIN, STDOUT, STDERR} && kept <= forked.Keys
    ensures ok <==>
              && CanOpen(t.stdin, false, allowed) && CanOpen(t.stdout, true, allowed)
              && CanOpen(t.stderr, true, allowed)
    ensures ok ==> files.Keys == {0, 1, 2} + kept
    ensures ok ==> Means(files[0], t.stdin, false, w.pipes, w.files)
    ensures ok ==> Means(files[1], t.stdout, true, w.pipes, w.files)
    ensures ok ==> if t.stderr == "@_stdout" then files[2] == files[1]
                   else Means(files[2], t.stderr, true, w.pipes, w.files)
    ensures ok ==> forall fd :: fd in files && files[fd].PipeFile? ==> fd == 0 || fd == 1 || fd == 2
    ensures ok && (t.stdout == "" || t.stdout[0] != '@') && (t.stderr == "" || t.stderr[0] != '@') ==>
              files[1] != files[2]
  {
    hide PipesOpen, Means, StreamFor, OpenedAs, CPrefix, StreamPipes, DupAll, CanOpen;
    var streams := StreamsFor(t, w.pipes);
    var s := new SlaveFiles(forked, streams, serials);
    WhatIsOpened(t, w.pipes, allowed);
    ok := s.OpenFiles(allowed);
    files := s.files;
    if ok {
      OpenedMeans(t.stdin, false, false, s.streams.stdin, w.pipes, w.files, s.files);
      OpenedMeans(t.stdout, true, false, s.streams.stdout, w.pipes, w.files, s.files);
      if PipeOf(t.stderr) == Some(STDOUT_ALIAS) {
        AliasStays(t.stderr, s.streams.stderr, w.pipes, s.files);
      } else {
        OpenedMeans(t.stderr, true, true, s.streams.stderr, w.pipes, w.files, s.files);
      }
      DupAllMeans(s.files, s.streams);
      ok := s.Dup2Fds();
      assert ok;
      s.CloseAllFds(kept);
      files := s.files;
    }
  }

  /** Of two slaves of a request, or of one: streams that name the same pipe are the two
      ends of one pipe, or the same end of it; streams that name different pipes have
      nothing to do with each other. */
  lemma PipesAreShared(f: File, p: string, writeF: bool, g: File, q: string, writeG: bool, pipes: Pipes, files: Table)
    requires PipesOpen(pipes, files)
    requires Means(f, "@" + p, writeF, pipes, files) && Means(g, "@" + q, writeG, pipes, files)
    ensures f.PipeFile? && g.PipeFile? && f.write == writeF && g.write == writeG
    ensures f.pipe == g.pipe <==> p == q
  {
    PipeOfIff("@" + p, p);
    PipeOfIff("@" + q, q);
  }
}
