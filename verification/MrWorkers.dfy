/** The workers' programs are the job's steps: what a map or reduce task run by its loops does to
    the directory is what that worker's steps do when it runs alone. */
module MrWorkers {
  import opened Sets
  import opened MrNames
  import opened MrData
  import opened MrPrograms
  import opened MrJob

  predicate IsWorkerStep(a: Action, u: nat) {
    (a.StartMap? || a.InstallBucket? || a.EndMap? || a.StartReduce? || a.ReadFile? || a.InstallOut?) && a.u == u
  }

  /** The state after some actions from state `s`. */
  ghost function From(job: Job, s: State, acts: seq<Action>): State
    requires job.reducers > 0
  {
    if acts == [] then s else Do(job, From(job, s, acts[..|acts| - 1]), acts[|acts| - 1])
  }

  ghost predicate ByWorker(job: Job, s: State, u: nat, t: State, acts: seq<Action>)
    requires job.reducers > 0
  {
    From(job, s, acts) == t && forall i :: 0 <= i < |acts| ==> IsWorkerStep(acts[i], u)
  }

  /** Worker `u`, running alone, takes the job from `s` to `t`. */
  ghost predicate Alone(job: Job, s: State, u: nat, t: State)
    requires job.reducers > 0
  {
    exists acts :: ByWorker(job, s, u, t, acts)
  }

  lemma AloneStarts(job: Job, s: State, u: nat)
    requires job.reducers > 0
    ensures Alone(job, s, u, s)
  {
    assert ByWorker(job, s, u, s, []);
  }

  lemma FromExtends(job: Job, s: State, acts: seq<Action>, a: Action)
    requires job.reducers > 0
    ensures From(job, s, acts + [a]) == Do(job, From(job, s, acts), a)
  {
    var more := acts + [a];
    assert more != [] && more[..|more| - 1] == acts && more[|more| - 1] == a;
    assert From(job, s, more) == Do(job, From(job, s, more[..|more| - 1]), more[|more| - 1]);
  }

  lemma AloneStep(job: Job, s: State, u: nat, t: State, a: Action)
    requires job.reducers > 0 && Alone(job, s, u, t) && IsWorkerStep(a, u)
    ensures Alone(job, s, u, Do(job, t, a))
  {
    var acts :| ByWorker(job, s, u, t, acts);
    FromExtends(job, s, acts, a);
    assert ByWorker(job, s, u, Do(job, t, a), acts + [a]);
  }

  // ---------------------------------------------------------------- map tasks

  /** The description of a map task's effect leaves no choice. */
  lemma InstalledIsUnique(before: Files, x: Files, y: Files, task: nat, uuid: nat, agg: map<nat, seq<KeyValue>>, hs: set<nat>)
    requires hs <= agg.Keys && MapInstalled(before, x, task, uuid, agg, hs) && MapInstalled(before, y, task, uuid, agg, hs)
    ensures x == y
  {
    forall f ensures (f in x <==> f in y) && (f in x ==> x[f] == y[f]) {
      if Writes(task, uuid, hs, f) {
        assert f == if f.Inter? then Inter(task, f.bucket) else InterTmp(task, f.bucket, uuid);
      }
    }
  }

  /** One more bucket installed. */
  lemma InstallStep(job: Job, s0: State, s: State, u: nat, agg: map<nat, seq<KeyValue>>, done: set<nat>, h: nat)
      returns (t: State)
    requires job.reducers > 0 && Alone(job, s0, u, s) && HasTask(s, u, false) && done <= agg.Keys && h in agg.Keys - done
    requires ExecOf(s, u) == Mapping(agg - done) && MapInstalled(s0.files, s.files, TaskNo(s, u), u, agg, done)
    ensures Alone(job, s0, u, t) && t.sched == s.sched && t.execs == s.execs[u := Mapping(agg - (done + {h}))]
    ensures MapInstalled(s0.files, t.files, TaskNo(s, u), u, agg, done + {h})
  {
    AloneStep(job, s0, u, s, InstallBucket(u, h));
    t := DoInstallBucket(s, u, h);
    assert (agg - done) - {h} == agg - (done + {h});
    InstallOne(s0.files, s.files, TaskNo(s, u), u, agg, done, h);
  }

  lemma {:induction false} InstallRest(job: Job, s0: State, s: State, u: nat, agg: map<nat, seq<KeyValue>>, done: set<nat>)
      returns (t: State)
    requires job.reducers > 0 && Alone(job, s0, u, s) && HasTask(s, u, false) && done <= agg.Keys
    requires u in s.execs && s.execs[u] == Mapping(agg - done) && MapInstalled(s0.files, s.files, TaskNo(s, u), u, agg, done)
    ensures Alone(job, s0, u, t) && t.sched == s.sched && t.execs == s.execs[u := Mapping(agg - agg.Keys)]
    ensures MapInstalled(s0.files, t.files, TaskNo(s, u), u, agg, agg.Keys)
    decreases agg.Keys - done
  {
    if agg.Keys - done == {} {
      assert done == agg.Keys by { assert agg.Keys == (agg.Keys - done) + done; }
      t := s;
      assert s.execs == s.execs[u := Mapping(agg - agg.Keys)];
    } else {
      var h := Pick(agg.Keys - done);
      var r := InstallStep(job, s0, s, u, agg, done, h);
      assert r.execs[u] == Mapping(agg - (done + {h}));
      t := InstallRest(job, s0, r, u, agg, done + {h});
    }
  }

  lemma MapBegins(job: Job, s: State, u: nat, kva: seq<KeyValue>, agg: map<nat, seq<KeyValue>>)
    requires job.reducers > 0 && Enabled(job, s, StartMap(u, kva))
    requires forall h: nat :: h in agg <==> Bucket(kva, job.hash, job.reducers, h) != []
    requires forall h :: h in agg ==> h < job.reducers && agg[h] == Bucket(kva, job.hash, job.reducers, h)
    ensures Alone(job, s, u, s.(execs := s.execs[u := Mapping(agg)]))
  {
    AloneStarts(job, s, u);
    AloneStep(job, s, u, s, StartMap(u, kva));
    assert Buckets(job, kva) == agg;
  }

  lemma MapEnds(job: Job, s0: State, s: State, u: nat)
    requires job.reducers > 0 && Alone(job, s0, u, s) && HasTask(s, u, false)
    requires u in s.execs && s.execs[u].Mapping? && s.execs[u].todo.Keys == {}
    ensures Alone(job, s0, u, s.(execs := s.execs[u := Finished]))
  {
    AloneStep(job, s0, u, s, EndMap(u));
  }

  lemma MapGoesOn(job: Job, s: State, u: nat, agg: map<nat, seq<KeyValue>>, after: Files)
    requires job.reducers > 0 && HasTask(s, u, false) && Alone(job, s, u, s.(execs := s.execs[u := Mapping(agg)]))
    requires MapInstalled(s.files, after, TaskNo(s, u), u, agg, agg.Keys)
    ensures Alone(job, s, u, s.(files := after, execs := s.execs[u := Finished]))
  {
    assert agg - {} == agg;
    var s2 := InstallRest(job, s, s.(execs := s.execs[u := Mapping(agg)]), u, agg, {});
    InstalledIsUnique(s.files, s2.files, after, TaskNo(s, u), u, agg, agg.Keys);
    assert (agg - agg.Keys).Keys == {};
    MapEnds(job, s, s2, u);
    assert s2.execs[u := Finished] == s.execs[u := Finished];
  }

  /** Whatever directory the map worker's program leaves, its steps leave. */
  lemma MapTaskIsSteps(job: Job, s: State, u: nat, kva: seq<KeyValue>, agg: map<nat, seq<KeyValue>>, after: Files)
    requires job.reducers > 0 && Enabled(job, s, StartMap(u, kva))
    requires forall h: nat :: h in agg <==> Bucket(kva, job.hash, job.reducers, h) != []
    requires forall h :: h in agg ==> h < job.reducers && agg[h] == Bucket(kva, job.hash, job.reducers, h)
    requires MapInstalled(s.files, after, TaskNo(s, u), u, agg, agg.Keys)
    ensures Alone(job, s, u, s.(files := after, execs := s.execs[u := Finished]))
  {
    MapBegins(job, s, u, kva, agg);
    MapGoesOn(job, s, u, agg, after);
  }

  // ---------------------------------------------------------------- reduce tasks

  ghost predicate Readable(files: Files, order: seq<FileName>) {
    && (forall i :: 0 <= i < |order| ==> order[i] in files && files[order[i]].Pairs?)
    && (forall i, j :: 0 <= i < j < |order| ==> order[i] != order[j])
  }

  function Names(order: seq<FileName>): set<FileName> {
    set f | f in order
  }

  /** What the reduce task holds after its first `i` files. */
  function ReadSoFar(files: Files, order: seq<FileName>, i: nat): Exec
    requires i <= |order|
  {
    Reading(Names(order) - Names(order[..i]), ReadAll(files, order[..i]))
  }

  lemma ReadOne(files: Files, order: seq<FileName>, i: nat)
    requires i < |order| && Readable(files, order)
    ensures var e, name := ReadSoFar(files, order, i), order[i];
            && name in e.names && ReadSoFar(files, order, i + 1) == Reading(e.names - {name}, e.acc + files[name].ps)
  {
    var name := order[i];
    assert order[..i + 1] == order[..i] + [name] && name !in order[..i];
    assert order[..i + 1][..i] == order[..i];
    assert Names(order) - Names(order[..i]) - {name} == Names(order) - Names(order[..i + 1]);
  }

  lemma {:induction false} ReadFirst(job: Job, s0: State, s: State, u: nat, order: seq<FileName>, i: nat)
    requires job.reducers > 0 && HasTask(s, u, true) && i <= |order| && Readable(s.files, order)
    requires Alone(job, s0, u, s.(execs := s.execs[u := ReadSoFar(s.files, order, 0)]))
    ensures Alone(job, s0, u, s.(execs := s.execs[u := ReadSoFar(s.files, order, i)]))
  {
    if i > 0 {
      ReadFirst(job, s0, s, u, order, i - 1);
      ReadOne(s.files, order, i - 1);
      var r := s.(execs := s.execs[u := ReadSoFar(s.files, order, i - 1)]);
      AloneStep(job, s0, u, r, ReadFile(u, order[i - 1]));
      assert r.execs[u := ReadSoFar(s.files, order, i)] == s.execs[u := ReadSoFar(s.files, order, i)];
    }
  }

  lemma ReduceBegins(job: Job, s: State, u: nat, order: seq<FileName>)
    requires job.reducers > 0 && Enabled(job, s, StartReduce(u))
    requires forall g :: g in order <==> g in s.files && g.Inter? && g.bucket == TaskNo(s, u)
    ensures Alone(job, s, u, s.(execs := s.execs[u := ReadSoFar(s.files, order, 0)]))
  {
    AloneStarts(job, s, u);
    AloneStep(job, s, u, s, StartReduce(u));
    ListingIsExact(s.files, TaskNo(s, u));
    assert Listing(s.files, TaskNo(s, u)) == Names(order) - Names(order[..0]);
  }

  lemma ReduceEnds(job: Job, s0: State, s: State, u: nat, reds: seq<Line>)
    requires job.reducers > 0 && Alone(job, s0, u, s) && HasTask(s, u, true)
    requires u in s.execs && s.execs[u].Reading? && s.execs[u].names == {} && Reduces(reds, s.execs[u].acc, job.reducef)
    ensures Alone(job, s0, u, DoInstallOut(s, u, reds))
  {
    AloneStep(job, s0, u, s, InstallOut(u, reds));
  }

  lemma ReduceGoesOn(job: Job, s: State, u: nat, order: seq<FileName>, reds: seq<Line>)
    requires job.reducers > 0 && HasTask(s, u, true) && Readable(s.files, order)
    requires Alone(job, s, u, s.(execs := s.execs[u := ReadSoFar(s.files, order, 0)]))
    requires Reduces(reds, ReadAll(s.files, order), job.reducef)
    ensures Alone(job, s, u, DoInstallOut(s, u, reds))
  {
    ReadFirst(job, s, s, u, order, |order|);
    var r := s.(execs := s.execs[u := ReadSoFar(s.files, order, |order|)]);
    assert order[..|order|] == order && Names(order) - Names(order) == {};
    ReduceEnds(job, s, r, u, reds);
    assert r.execs[u := Finished] == s.execs[u := Finished];
  }

  /** Whatever directory the reduce worker's program leaves, its steps leave. */
  lemma ReduceTaskIsSteps(job: Job, s: State, u: nat, order: seq<FileName>, reds: seq<Line>)
    requires job.reducers > 0 && Enabled(job, s, StartReduce(u))
    requires forall g :: g in s.files && g.Inter? ==> s.files[g].Pairs?
    requires forall g :: g in order <==> g in s.files && g.Inter? && g.bucket == TaskNo(s, u)
    requires forall i, j :: 0 <= i < j < |order| ==> order[i] != order[j]
    requires Reduces(reds, ReadAll(s.files, order), job.reducef)
    ensures var r := TaskNo(s, u);
            Alone(job, s, u, s.(files := s.files[Out(r) := Lines(reds)] - {OutTmp(r)}, execs := s.execs[u := Finished]))
  {
    ReduceBegins(job, s, u, order);
    assert Readable(s.files, order) by { assert forall i :: 0 <= i < |order| ==> order[i] in order; }
    ReduceGoesOn(job, s, u, order, reds);
  }
}
