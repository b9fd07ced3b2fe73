/** A whole MapReduce job: the coordinator, any number of workers that run, re-run, stall or
    stop, and the directory they share. */
module MrJob {
  import opened MrNames
  import opened MrData
  import opened MrPrograms
  import S = MrScheduler

  /** `inputs[t]` is what `mapf` gives for file `t`, up to order. */
  datatype Job = Job(inputs: seq<seq<KeyValue>>, hash: string -> nat, reducers: nat, reducef: (string, seq<string>) -> string)

  ghost predicate WellFormed(job: Job) {
    job.reducers > 0 && OrderBlind(job.reducef)
  }

  /** The execution of an issued task by the worker that received it: buckets still to install,
      files still to read and pairs read so far, or all done. */
  datatype Exec = Fresh | Mapping(todo: map<nat, seq<KeyValue>>) | Reading(names: set<FileName>, acc: seq<KeyValue>) | Finished

  datatype State = State(sched: S.State, files: map<FileName, Content>, execs: map<nat, Exec>)

  /** Temporary files may hold anything at any time. */
  datatype Action =
    | Sched(a: S.Action)
    | StartMap(u: nat, kva: seq<KeyValue>)
    | WriteTmp(u: nat, name: FileName, junk: Content)
    | InstallBucket(u: nat, h: nat)
    | EndMap(u: nat)
    | StartReduce(u: nat)
    | ReadFile(u: nat, name: FileName)
    | InstallOut(u: nat, lines: seq<Line>)
    | SignalDone(u: nat)

  function Begin(job: Job): State {
    State(S.Begin(|job.inputs|, job.reducers), map[], map[])
  }

  function ExecOf(s: State, u: nat): Exec {
    if u in s.execs then s.execs[u] else Fresh
  }

  predicate HasTask(s: State, u: nat, reduce: bool) {
    u in s.sched.issued && s.sched.issued[u].ReduceTask? == reduce
  }

  function TaskNo(s: State, u: nat): nat
    requires u in s.sched.issued
  {
    s.sched.issued[u].n
  }

  function BucketOf(job: Job, t: nat, h: nat): seq<KeyValue>
    requires job.reducers > 0
  {
    if t < |job.inputs| then Bucket(job.inputs[t], job.hash, job.reducers, h) else []
  }

  ghost predicate Enabled(job: Job, s: State, a: Action) {
    match a
    case Sched(b) => !b.Signal? && !(b.Meet? && b.send.Signal?)
    case StartMap(u, kva) =>
      && HasTask(s, u, false) && ExecOf(s, u).Fresh?
      && TaskNo(s, u) < |job.inputs| && multiset(kva) == multiset(job.inputs[TaskNo(s, u)])
    case WriteTmp(u, name, junk) => u in s.sched.issued && (name.InterTmp? || name.OutTmp?)
    case InstallBucket(u, h) => HasTask(s, u, false) && ExecOf(s, u).Mapping? && h in ExecOf(s, u).todo
    case EndMap(u) => HasTask(s, u, false) && ExecOf(s, u).Mapping? && ExecOf(s, u).todo.Keys == {}
    case StartReduce(u) => HasTask(s, u, true) && ExecOf(s, u).Fresh?
    case ReadFile(u, name) =>
      HasTask(s, u, true) && ExecOf(s, u).Reading? && name in ExecOf(s, u).names && name in s.files && s.files[name].Pairs?
    case InstallOut(u, lines) =>
      HasTask(s, u, true) && ExecOf(s, u).Reading? && ExecOf(s, u).names == {} && Reduces(lines, ExecOf(s, u).acc, job.reducef)
    case SignalDone(u) => ExecOf(s, u).Finished?
  }

  /** The worker's signal; on an unbuffered channel the controller takes it at once. */
  function Signals(s: State, u: nat): S.Action {
    if s.sched.files > 0 then S.Signal(u) else S.Meet(S.Signal(u), S.TakeCompleted)
  }

  ghost function Buckets(job: Job, kva: seq<KeyValue>): map<nat, seq<KeyValue>>
    requires job.reducers > 0
  {
    map h: nat | h < job.reducers && Bucket(kva, job.hash, job.reducers, h) != [] :: Bucket(kva, job.hash, job.reducers, h)
  }

  function DoInstallBucket(s: State, u: nat, h: nat): State
    requires u in s.sched.issued && ExecOf(s, u).Mapping? && h in ExecOf(s, u).todo
  {
    var t, todo := TaskNo(s, u), ExecOf(s, u).todo;
    s.(files := s.files[Inter(t, h) := Pairs(todo[h])] - {InterTmp(t, h, u)}, execs := s.execs[u := Mapping(todo - {h})])
  }

  /** The names that the reduce task selects from the directory listing. */
  function Listing(files: map<FileName, Content>, r: nat): set<FileName> {
    set name | name in files && Selected(Render(name), r)
  }

  function DoReadFile(s: State, u: nat, name: FileName): State
    requires ExecOf(s, u).Reading? && name in s.files && s.files[name].Pairs?
  {
    var e := ExecOf(s, u);
    s.(execs := s.execs[u := Reading(e.names - {name}, e.acc + s.files[name].ps)])
  }

  function DoInstallOut(s: State, u: nat, lines: seq<Line>): State
    requires u in s.sched.issued
  {
    var r := TaskNo(s, u);
    s.(files := s.files[Out(r) := Lines(lines)] - {OutTmp(r)}, execs := s.execs[u := Finished])
  }

  ghost function Do(job: Job, s: State, a: Action): State
    requires job.reducers > 0
  {
    if !Enabled(job, s, a) then s else
    match a
    case Sched(b) => s.(sched := S.Do(s.sched, b))
    case StartMap(u, kva) => s.(execs := s.execs[u := Mapping(Buckets(job, kva))])
    case WriteTmp(u, name, junk) => s.(files := s.files[name := junk])
    case InstallBucket(u, h) => DoInstallBucket(s, u, h)
    case EndMap(u) => s.(execs := s.execs[u := Finished])
    case StartReduce(u) => s.(execs := s.execs[u := Reading(Listing(s.files, TaskNo(s, u)), [])])
    case ReadFile(u, name) => DoReadFile(s, u, name)
    case InstallOut(u, lines) => DoInstallOut(s, u, lines)
    case SignalDone(u) => s.(sched := S.Do(s.sched, Signals(s, u)))
  }

  ghost function Run(job: Job, acts: seq<Action>): State
    requires job.reducers > 0
  {
    if acts == [] then Begin(job) else Do(job, Run(job, acts[..|acts| - 1]), acts[|acts| - 1])
  }

  // ---------------------------------------------------------------- invariant

  type Files = map<FileName, Content>

  function Everything(job: Job): seq<KeyValue> {
    Flatten(job.inputs)
  }

  /** A bucket file holds its pairs in some order. */
  ghost predicate InterOk(job: Job, files: Files, t: nat, h: nat)
    requires job.reducers > 0
  {
    Inter(t, h) in files ==>
      && files[Inter(t, h)].Pairs?
      && multiset(files[Inter(t, h)].ps) == multiset(BucketOf(job, t, h))
      && BucketOf(job, t, h) != []
  }

  /** An output file holds the reduction of its bucket. */
  ghost predicate OutOk(job: Job, files: Files, r: nat)
    requires job.reducers > 0
  {
    Out(r) in files ==>
      && files[Out(r)].Lines?
      && Reduces(files[Out(r)].lines, Bucket(Everything(job), job.hash, job.reducers, r), job.reducef)
  }

  ghost predicate FilesOk(job: Job, files: Files)
    requires job.reducers > 0
  {
    (forall t, h :: InterOk(job, files, t, h)) && (forall r :: OutOk(job, files, r))
  }

  /** The map task's non-empty buckets are all installed. */
  ghost predicate MapComplete(job: Job, files: Files, t: nat)
    requires job.reducers > 0
  {
    forall h :: BucketOf(job, t, h) != [] ==> Inter(t, h) in files
  }

  ghost predicate TaskDone(job: Job, files: Files, x: S.Task)
    requires job.reducers > 0
  {
    match x
    case MapTask(n) => MapComplete(job, files, n)
    case ReduceTask(r) => Out(r) in files
  }

  /** How many pairs `p` each map task has for reducer `r`. */
  ghost function Held(job: Job, r: nat, p: KeyValue): seq<nat>
    requires job.reducers > 0
  {
    seq(|job.inputs|, t requires 0 <= t < |job.inputs| => multiset(BucketOf(job, t, r))[p])
  }

  /** The sum of the first `m` counts, those of the files in `names` aside. */
  ghost function Gathered(held: seq<nat>, r: nat, names: set<FileName>, m: nat): nat
    requires m <= |held|
  {
    if m == 0 then 0 else
    Gathered(held, r, names, m - 1) + if Inter(m - 1, r) in names then 0 else held[m - 1]
  }

  ghost predicate MappingOk(job: Job, files: Files, t: nat, todo: map<nat, seq<KeyValue>>)
    requires job.reducers > 0
  {
    && (forall h :: h in todo ==> multiset(todo[h]) == multiset(BucketOf(job, t, h)) && BucketOf(job, t, h) != [])
    && (forall h :: BucketOf(job, t, h) != [] ==> h in todo || Inter(t, h) in files)
  }

  ghost predicate ReadingOk(job: Job, files: Files, r: nat, names: set<FileName>, acc: seq<KeyValue>)
    requires job.reducers > 0
  {
    && (forall name :: name in names ==> name.Inter? && name.bucket == r && name in files)
    && (forall p :: multiset(acc)[p] == Gathered(Held(job, r, p), r, names, |job.inputs|))
  }

  /** What the worker executing task `x` knows. */
  ghost predicate ExecOk(job: Job, files: Files, x: S.Task, e: Exec)
    requires job.reducers > 0
  {
    match e
    case Fresh => true
    case Mapping(todo) => x.MapTask? && MappingOk(job, files, x.n, todo)
    case Reading(names, acc) => x.ReduceTask? && ReadingOk(job, files, x.n, names, acc)
    case Finished => TaskDone(job, files, x)
  }

  ghost predicate ExecsOk(job: Job, s: State)
    requires job.reducers > 0
  {
    forall u :: u in s.execs ==> u in s.sched.issued && ExecOk(job, s.files, s.sched.issued[u], s.execs[u])
  }

  /** What is signalled is finished, and what is finished is done. */
  ghost predicate SignalsOk(job: Job, s: State)
    requires job.reducers > 0
  {
    && (forall i :: 0 <= i < |s.sched.completed| ==> ExecOf(s, s.sched.completed[i]).Finished?)
    && (forall x :: x in s.sched.finished ==> TaskDone(job, s.files, x))
    && (forall x :: x in s.sched.accepted ==> TaskDone(job, s.files, x))
    && (s.sched.held.ToFinished? ==> TaskDone(job, s.files, s.sched.held.task))
  }

  ghost predicate SchedOk(job: Job, s: State) {
    S.Inv(s.sched) && s.sched.files == |job.inputs| && s.sched.reducers == job.reducers
  }

  ghost predicate Inv(job: Job, s: State)
    requires job.reducers > 0
  {
    SchedOk(job, s) && SignalsOk(job, s) && FilesOk(job, s.files) && ExecsOk(job, s)
  }

  /** Bucket files and outputs never disappear. */
  ghost predicate Grows(files: Files, files': Files) {
    forall name: FileName :: (name.Inter? || name.Out?) && name in files ==> name in files'
  }

  lemma DoneStays(job: Job, files: Files, files': Files, x: S.Task)
    requires job.reducers > 0 && Grows(files, files') && TaskDone(job, files, x)
    ensures TaskDone(job, files', x)
  {
  }

  /** What a worker knows survives the steps of all others. */
  lemma ExecStays(job: Job, files: Files, files': Files, x: S.Task, e: Exec)
    requires job.reducers > 0 && Grows(files, files') && ExecOk(job, files, x, e)
    ensures ExecOk(job, files', x, e)
  {
    if e.Finished? { DoneStays(job, files, files', x); }
  }

  /** Worker `u` turns from `ExecOf(s, u)` to `e` and leaves the directory as `files'`. */
  lemma WorkerStep(job: Job, s: State, u: nat, files': Files, e: Exec)
    requires job.reducers > 0 && SignalsOk(job, s) && ExecsOk(job, s)
    requires Grows(s.files, files') && u in s.sched.issued
    requires ExecOk(job, files', s.sched.issued[u], e) && (ExecOf(s, u).Finished? ==> e.Finished?)
    ensures var t := s.(files := files', execs := s.execs[u := e]); SignalsOk(job, t) && ExecsOk(job, t)
  {
    var t := s.(files := files', execs := s.execs[u := e]);
    forall v | v in t.execs ensures v in t.sched.issued && ExecOk(job, t.files, t.sched.issued[v], t.execs[v]) {
      if v != u { ExecStays(job, s.files, files', s.sched.issued[v], s.execs[v]); }
    }
    forall x | x in s.sched.finished ensures TaskDone(job, files', x) { DoneStays(job, s.files, files', x); }
    forall x | x in s.sched.accepted ensures TaskDone(job, files', x) { DoneStays(job, s.files, files', x); }
    if s.sched.held.ToFinished? { DoneStays(job, s.files, files', s.sched.held.task); }
  }

  // ---- the scheduler's steps

  /** The coordinator's own steps, and signals of finished work. */
  ghost predicate Honest(s: State, b: S.Action) {
    b.Signal? ==> ExecOf(s, b.uuid).Finished?
  }

  lemma SchedReady(job: Job, s: State, b: S.Action)
    requires job.reducers > 0 && Inv(job, s) && S.Ready(s.sched, b) && Honest(s, b)
    ensures Inv(job, s.(sched := S.Step(s.sched, b)))
  {
    S.InvReady(s.sched, b);
    SchedSignals(job, s, b);
    SchedExecs(job, s, b);
  }

  lemma SchedStep(job: Job, s: State, b: S.Action)
    requires job.reducers > 0 && Inv(job, s) && Honest(s, if b.Meet? then b.send else b)
    ensures Inv(job, s.(sched := S.Do(s.sched, b)))
  {
    if S.Enabled(s.sched, b) {
      if b.Meet? {
        SchedReady(job, s, b.send);
        SchedReady(job, s.(sched := S.Step(s.sched, b.send)), b.recv);
      } else {
        SchedReady(job, s, b);
      }
    }
  }

  lemma SchedExecs(job: Job, s: State, b: S.Action)
    requires job.reducers > 0 && ExecsOk(job, s) && S.UuidsOk(s.sched) && S.Ready(s.sched, b)
    ensures ExecsOk(job, s.(sched := S.Step(s.sched, b)))
  {
    var c, d := s.sched, S.Step(s.sched, b);
    forall u | u in c.issued ensures u in d.issued && d.issued[u] == c.issued[u] {
      if b.Announce? { assert b.uuid !in c.issued; }
    }
  }

  lemma SchedSignals(job: Job, s: State, b: S.Action)
    requires job.reducers > 0 && SignalsOk(job, s) && ExecsOk(job, s) && S.UuidsOk(s.sched)
    requires S.Ready(s.sched, b) && Honest(s, b)
    ensures SignalsOk(job, s.(sched := S.Step(s.sched, b)))
  {
    var c := s.sched;
    match b
    case TakeCompleted =>
      var u := c.completed[0];
      if u in c.pending { assert ExecOf(s, u).Finished? && c.issued[u] == c.pending[u]; }
    case Collect => assert c.finished == [c.finished[0]] + c.finished[1..];
    case _ =>
  }

  // ---- the map worker's steps

  lemma {:induction false} BucketInRange(ps: seq<KeyValue>, hash: string -> nat, n: nat, r: nat)
    requires n > 0 && Bucket(ps, hash, n, r) != []
    ensures r < n
  {
    if Place(hash, n, ps[|ps| - 1].key) != r { BucketInRange(ps[..|ps| - 1], hash, n, r); }
  }

  lemma SameSize(a: seq<KeyValue>, b: seq<KeyValue>)
    requires multiset(a) == multiset(b)
    ensures |a| == |b|
  {
    assert |multiset(a)| == |a| && |multiset(b)| == |b|;
  }

  lemma MapStarts(job: Job, files: Files, t: nat, kva: seq<KeyValue>)
    requires job.reducers > 0 && t < |job.inputs| && multiset(kva) == multiset(job.inputs[t])
    ensures MappingOk(job, files, t, Buckets(job, kva))
  {
    var todo := Buckets(job, kva);
    forall h: nat ensures multiset(Bucket(kva, job.hash, job.reducers, h)) == multiset(BucketOf(job, t, h))
                          && (BucketOf(job, t, h) != [] <==> h in todo) {
      BucketPermute(kva, job.inputs[t], job.hash, job.reducers, h);
      SameSize(Bucket(kva, job.hash, job.reducers, h), BucketOf(job, t, h));
      if BucketOf(job, t, h) != [] { BucketInRange(kva, job.hash, job.reducers, h); }
    }
  }

  lemma BucketInstalled(job: Job, files: Files, t: nat, todo: map<nat, seq<KeyValue>>, h: nat, u: nat)
    requires job.reducers > 0 && FilesOk(job, files) && MappingOk(job, files, t, todo) && h in todo
    ensures var files' := files[Inter(t, h) := Pairs(todo[h])] - {InterTmp(t, h, u)};
            Grows(files, files') && FilesOk(job, files') && MappingOk(job, files', t, todo - {h})
  {
    var files' := files[Inter(t, h) := Pairs(todo[h])] - {InterTmp(t, h, u)};
    forall t', h' ensures InterOk(job, files', t', h') { assert InterOk(job, files, t', h'); }
    forall r ensures OutOk(job, files', r) { assert OutOk(job, files, r); }
  }

  // ---- the reduce worker's steps

  /** After the barrier the directory holds every non-empty bucket. */
  lemma BarrierMeansComplete(job: Job, s: State, u: nat)
    requires job.reducers > 0 && SchedOk(job, s) && SignalsOk(job, s) && HasTask(s, u, true)
    ensures forall t :: 0 <= t < |job.inputs| ==> MapComplete(job, s.files, t)
  {
    forall t | 0 <= t < |job.inputs| ensures MapComplete(job, s.files, t) {
      assert S.MapTask(t) in s.sched.accepted;
      assert TaskDone(job, s.files, S.MapTask(t));
    }
  }

  lemma {:induction false} NothingGathered(held: seq<nat>, r: nat, names: set<FileName>, m: nat)
    requires m <= |held| && forall t :: 0 <= t < m ==> Inter(t, r) in names || held[t] == 0
    ensures Gathered(held, r, names, m) == 0
  {
    if m > 0 { NothingGathered(held, r, names, m - 1); }
  }

  lemma ListedOrEmpty(job: Job, files: Files, r: nat, t: nat, p: KeyValue)
    requires job.reducers > 0 && t < |job.inputs| && MapComplete(job, files, t)
    ensures Inter(t, r) in Listing(files, r) || Held(job, r, p)[t] == 0
  {
    SelectedIff(Inter(t, r), r);
  }

  lemma ReduceStarts(job: Job, files: Files, r: nat)
    requires job.reducers > 0 && forall t :: 0 <= t < |job.inputs| ==> MapComplete(job, files, t)
    ensures ReadingOk(job, files, r, Listing(files, r), [])
  {
    forall p ensures Gathered(Held(job, r, p), r, Listing(files, r), |job.inputs|) == 0 {
      forall t | 0 <= t < |job.inputs| ensures Inter(t, r) in Listing(files, r) || Held(job, r, p)[t] == 0 {
        ListedOrEmpty(job, files, r, t, p);
      }
      NothingGathered(Held(job, r, p), r, Listing(files, r), |job.inputs|);
    }
    forall name | name in Listing(files, r) ensures name.Inter? && name.bucket == r { SelectedIff(name, r); }
  }

  /** Reading one more file adds its bucket. */
  lemma {:induction false} OneGathered(held: seq<nat>, r: nat, names: set<FileName>, t: nat, m: nat)
    requires Inter(t, r) in names && m <= |held|
    ensures Gathered(held, r, names - {Inter(t, r)}, m) == Gathered(held, r, names, m) + if t < m then held[t] else 0
  {
    if m > 0 { OneGathered(held, r, names, t, m - 1); }
  }

  lemma FileRead(job: Job, files: Files, r: nat, names: set<FileName>, acc: seq<KeyValue>, name: FileName)
    requires job.reducers > 0 && FilesOk(job, files) && ReadingOk(job, files, r, names, acc) && name in names
    ensures files[name].Pairs? && ReadingOk(job, files, r, names - {name}, acc + files[name].ps)
  {
    assert InterOk(job, files, name.task, r) && name == Inter(name.task, r);
    var all := acc + files[name].ps;
    forall p ensures multiset(all)[p] == Gathered(Held(job, r, p), r, names - {name}, |job.inputs|) {
      OneGathered(Held(job, r, p), r, names, name.task, |job.inputs|);
      assert multiset(all) == multiset(acc) + multiset(files[name].ps);
    }
  }

  lemma {:induction false} AllGathered(job: Job, r: nat, m: nat, p: KeyValue)
    requires job.reducers > 0 && m <= |job.inputs|
    ensures Gathered(Held(job, r, p), r, {}, m) == multiset(Bucket(Flatten(job.inputs[..m]), job.hash, job.reducers, r))[p]
  {
    if m > 0 {
      AllGathered(job, r, m - 1, p);
      FlattenOneMore(job, m);
      BucketConcat(Flatten(job.inputs[..m - 1]), job.inputs[m - 1], job.hash, job.reducers, r);
    }
  }

  lemma FlattenOneMore(job: Job, m: nat)
    requires 0 < m <= |job.inputs|
    ensures Flatten(job.inputs[..m]) == Flatten(job.inputs[..m - 1]) + job.inputs[m - 1]
  {
    assert job.inputs[..m][..m - 1] == job.inputs[..m - 1];
  }

  /** A reduce task that has read all its files has read its whole bucket. */
  lemma AllRead(job: Job, files: Files, r: nat, acc: seq<KeyValue>)
    requires job.reducers > 0 && ReadingOk(job, files, r, {}, acc)
    ensures multiset(acc) == multiset(Bucket(Everything(job), job.hash, job.reducers, r))
  {
    var all := Bucket(Everything(job), job.hash, job.reducers, r);
    forall p ensures multiset(acc)[p] == multiset(all)[p] {
      AllGathered(job, r, |job.inputs|, p);
      assert job.inputs[..|job.inputs|] == job.inputs;
    }
  }

  lemma OutInstalled(job: Job, files: Files, r: nat, acc: seq<KeyValue>, lines: seq<Line>)
    requires WellFormed(job) && FilesOk(job, files) && ReadingOk(job, files, r, {}, acc) && Reduces(lines, acc, job.reducef)
    ensures var files' := files[Out(r) := Lines(lines)] - {OutTmp(r)}; Grows(files, files') && FilesOk(job, files')
  {
    var files' := files[Out(r) := Lines(lines)] - {OutTmp(r)};
    AllRead(job, files, r, acc);
    ReducesPermute(lines, acc, Bucket(Everything(job), job.hash, job.reducers, r), job.reducef);
    forall t', h' ensures InterOk(job, files', t', h') { assert InterOk(job, files, t', h'); }
    forall r' ensures OutOk(job, files', r') { assert OutOk(job, files, r'); }
  }

  lemma TmpWritten(job: Job, files: Files, name: FileName, junk: Content)
    requires job.reducers > 0 && FilesOk(job, files) && (name.InterTmp? || name.OutTmp?)
    ensures FilesOk(job, files[name := junk]) && Grows(files, files[name := junk])
  {
    var files' := files[name := junk];
    forall t', h' ensures InterOk(job, files', t', h') { assert InterOk(job, files, t', h'); }
    forall r' ensures OutOk(job, files', r') { assert OutOk(job, files, r'); }
  }

  // ---- all steps

  lemma MapWorkerStep(job: Job, s: State, a: Action)
    requires WellFormed(job) && SignalsOk(job, s) && FilesOk(job, s.files) && ExecsOk(job, s)
    requires Enabled(job, s, a) && (a.StartMap? || a.InstallBucket? || a.EndMap?)
    ensures var t := Do(job, s, a); SignalsOk(job, t) && FilesOk(job, t.files) && ExecsOk(job, t)
  {
    var t, x := Do(job, s, a), s.sched.issued[a.u];
    match a
    case StartMap(u, kva) =>
      MapStarts(job, s.files, x.n, kva);
      WorkerStep(job, s, u, s.files, Mapping(Buckets(job, kva)));
    case InstallBucket(u, h) =>
      BucketInstalled(job, s.files, x.n, s.execs[u].todo, h, u);
      WorkerStep(job, s, u, t.files, Mapping(s.execs[u].todo - {h}));
    case EndMap(u) =>
      WorkerStep(job, s, u, s.files, Finished);
  }

  lemma ReduceStartStep(job: Job, s: State, u: nat)
    requires WellFormed(job) && SchedOk(job, s) && SignalsOk(job, s) && FilesOk(job, s.files) && ExecsOk(job, s)
    requires Enabled(job, s, StartReduce(u))
    ensures var t := Do(job, s, StartReduce(u)); SignalsOk(job, t) && FilesOk(job, t.files) && ExecsOk(job, t)
  {
    var x := s.sched.issued[u];
    BarrierMeansComplete(job, s, u);
    ReduceStarts(job, s.files, x.n);
    WorkerStep(job, s, u, s.files, Reading(Listing(s.files, x.n), []));
  }

  lemma ReduceWorkerStep(job: Job, s: State, a: Action)
    requires WellFormed(job) && SignalsOk(job, s) && FilesOk(job, s.files) && ExecsOk(job, s)
    requires Enabled(job, s, a) && (a.ReadFile? || a.InstallOut?)
    ensures var t := Do(job, s, a); SignalsOk(job, t) && FilesOk(job, t.files) && ExecsOk(job, t)
  {
    var t, x := Do(job, s, a), s.sched.issued[a.u];
    match a
    case ReadFile(u, name) =>
      FileRead(job, s.files, x.n, s.execs[u].names, s.execs[u].acc, name);
      WorkerStep(job, s, u, s.files, t.execs[u]);
    case InstallOut(u, lines) =>
      OutInstalled(job, s.files, x.n, s.execs[u].acc, lines);
      WorkerStep(job, s, u, t.files, Finished);
  }

  lemma TmpStep(job: Job, s: State, u: nat, name: FileName, junk: Content)
    requires WellFormed(job) && SignalsOk(job, s) && FilesOk(job, s.files) && ExecsOk(job, s)
    requires Enabled(job, s, WriteTmp(u, name, junk))
    ensures var t := Do(job, s, WriteTmp(u, name, junk)); SignalsOk(job, t) && FilesOk(job, t.files) && ExecsOk(job, t)
  {
    var files' := s.files[name := junk];
    TmpWritten(job, s.files, name, junk);
    forall v | v in s.execs ensures ExecOk(job, files', s.sched.issued[v], s.execs[v]) {
      ExecStays(job, s.files, files', s.sched.issued[v], s.execs[v]);
    }
    forall x | x in s.sched.finished || x in s.sched.accepted ensures TaskDone(job, files', x) {
      DoneStays(job, s.files, files', x);
    }
    if s.sched.held.ToFinished? { DoneStays(job, s.files, files', s.sched.held.task); }
  }

  lemma InvStep(job: Job, s: State, a: Action)
    requires WellFormed(job) && Inv(job, s)
    ensures Inv(job, Do(job, s, a))
  {
    if Enabled(job, s, a) {
      match a
      case Sched(b) => SchedStep(job, s, b);
      case SignalDone(u) => SchedStep(job, s, Signals(s, u));
      case WriteTmp(u, name, junk) => TmpStep(job, s, u, name, junk);
      case StartMap(u, kva) => MapWorkerStep(job, s, a);
      case InstallBucket(u, h) => MapWorkerStep(job, s, a);
      case EndMap(u) => MapWorkerStep(job, s, a);
      case StartReduce(u) => ReduceStartStep(job, s, u);
      case ReadFile(u, name) => ReduceWorkerStep(job, s, a);
      case InstallOut(u, lines) => ReduceWorkerStep(job, s, a);
    }
  }

  lemma {:induction false} InvHolds(job: Job, acts: seq<Action>)
    requires WellFormed(job)
    ensures Inv(job, Run(job, acts))
  {
    if acts == [] {
      S.InvBegin(|job.inputs|, job.reducers);
    } else {
      InvHolds(job, acts[..|acts| - 1]);
      InvStep(job, Run(job, acts[..|acts| - 1]), acts[|acts| - 1]);
    }
  }

  // ---------------------------------------------------------------- results

  /** The name filter lists the bucket files of reducer `r` and nothing else in the directory. */
  lemma ListingIsExact(files: Files, r: nat)
    ensures forall name :: name in Listing(files, r) <==> name in files && name.Inter? && name.bucket == r
  {
    forall name | name in files ensures name in Listing(files, r) <==> name.Inter? && name.bucket == r {
      SelectedIff(name, r);
    }
  }

  /** Whenever a worker has a reduce task, the bucket file of every map task for that reducer is
      there with exactly its pairs, or absent and the bucket empty; and the name filter selects
      these files and nothing else in the directory. */
  lemma ReduceReadsCompleteData(job: Job, acts: seq<Action>, u: nat, t: nat)
    requires WellFormed(job) && HasTask(Run(job, acts), u, true) && t < |job.inputs|
    ensures var s := Run(job, acts); var r := TaskNo(s, u);
            && (Inter(t, r) in s.files <==> BucketOf(job, t, r) != [])
            && (Inter(t, r) in s.files ==>
                  s.files[Inter(t, r)].Pairs? && multiset(s.files[Inter(t, r)].ps) == multiset(BucketOf(job, t, r)))
            && (forall name :: name in Listing(s.files, r) <==> name in s.files && name.Inter? && name.bucket == r)
  {
    var s := Run(job, acts);
    InvHolds(job, acts);
    BarrierMeansComplete(job, s, u);
    assert MapComplete(job, s.files, t) && InterOk(job, s.files, t, TaskNo(s, u));
    ListingIsExact(s.files, TaskNo(s, u));
  }

  function OutputOf(files: Files, r: nat): seq<Line> {
    if Out(r) in files && files[Out(r)].Lines? then files[Out(r)].lines else []
  }

  /** The lines of all output files, file by file. */
  function Outputs(files: Files, n: nat): seq<seq<Line>> {
    seq(n, r requires 0 <= r < n => OutputOf(files, r))
  }

  /** Every output file is there and holds the reduction of its bucket. */
  ghost predicate OutputsComplete(job: Job, files: Files)
    requires job.reducers > 0
  {
    forall r :: 0 <= r < job.reducers ==>
      Out(r) in files && Reduces(OutputOf(files, r), Bucket(Everything(job), job.hash, job.reducers, r), job.reducef)
  }

  lemma DoneMeansComplete(job: Job, s: State)
    requires WellFormed(job) && Inv(job, s) && s.sched.phase == S.AllDone
    ensures OutputsComplete(job, s.files)
  {
    forall r | 0 <= r < job.reducers
      ensures Out(r) in s.files && Reduces(OutputOf(s.files, r), Bucket(Everything(job), job.hash, job.reducers, r), job.reducef)
    {
      S.NothingCirculates(s.sched, S.ReduceTask(r));
      assert TaskDone(job, s.files, S.ReduceTask(r)) && OutOk(job, s.files, r);
    }
  }

  /** A key has a line in the output its hash names, if it occurs, and in no other. */
  ghost predicate KeyPlaced(job: Job, files: Files, r: nat, k: string)
    requires job.reducers > 0
  {
    HasLine(OutputOf(files, r), k) <==> Values(Everything(job), k) != [] && r == Place(job.hash, job.reducers, k)
  }

  /** The outputs hold the sequential program's lines, each in the file its key hashes to. */
  ghost predicate SequentialOutput(job: Job, files: Files, lines: seq<Line>)
    requires job.reducers > 0
  {
    && (forall r :: 0 <= r < job.reducers ==> Out(r) in files)
    && multiset(Texts(Flatten(Outputs(files, job.reducers)))) == multiset(Texts(lines))
    && (forall r, k :: 0 <= r < job.reducers ==> KeyPlaced(job, files, r, k))
  }

  lemma {:induction false} SameTexts(job: Job, files: Files, sorted: seq<KeyValue>, lines: seq<Line>)
    requires WellFormed(job) && OutputsComplete(job, files)
    requires multiset(sorted) == multiset(Everything(job)) && Reduces(lines, sorted, job.reducef)
    ensures multiset(Texts(Flatten(Outputs(files, job.reducers)))) == multiset(Texts(lines))
  {
    var outs := Outputs(files, job.reducers);
    ReducesPermute(lines, sorted, Everything(job), job.reducef);
    PartitionedEqualsSequential(outs, lines, Everything(job), job.hash, job.reducers, job.reducef);
    TextsPermute(Flatten(outs), lines);
  }

  lemma {:induction false} KeysPlaced(job: Job, files: Files, r: nat, k: string)
    requires job.reducers > 0 && r < job.reducers
    requires Reduces(OutputOf(files, r), Bucket(Everything(job), job.hash, job.reducers, r), job.reducef)
    ensures KeyPlaced(job, files, r, k)
  {
    KeyInOneOutput(Outputs(files, job.reducers), Everything(job), job.hash, job.reducers, job.reducef, r, k);
  }

  lemma {:induction false} CompleteIsSequential(job: Job, files: Files, sorted: seq<KeyValue>, lines: seq<Line>)
    requires WellFormed(job) && OutputsComplete(job, files)
    requires multiset(sorted) == multiset(Everything(job)) && Reduces(lines, sorted, job.reducef)
    ensures SequentialOutput(job, files, lines)
  {
    SameTexts(job, files, sorted, lines);
    forall r, k | 0 <= r < job.reducers ensures KeyPlaced(job, files, r, k) { KeysPlaced(job, files, r, k); }
  }

  /** When the coordinator is done, in any run with any re-execution, every output file exists
      and the printed lines are those that the sequential program prints for the pairs of all
      inputs, sorted by key in any way, in some order; and each key's line is in the output file
      its hash names and in no other. */
  lemma {:induction false} JobEqualsSequential(job: Job, acts: seq<Action>, sorted: seq<KeyValue>)
    requires WellFormed(job) && Run(job, acts).sched.phase == S.AllDone
    requires multiset(sorted) == multiset(Everything(job)) && SortedByKey(sorted)
    ensures SequentialOutput(job, Run(job, acts).files, Scan(sorted, 0, job.reducef))
  {
    InvHolds(job, acts);
    DoneMeansComplete(job, Run(job, acts));
    ScanReduces(sorted, job.reducef);
    CompleteIsSequential(job, Run(job, acts).files, sorted, Scan(sorted, 0, job.reducef));
  }
}
