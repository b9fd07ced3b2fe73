/** Every job can be finished from every state of every run, and then has the output of the
    sequential program. */
module MrFinish {
  import opened Sets
  import opened MrNames
  import opened MrData
  import opened MrPrograms
  import opened MrJob
  import S = MrScheduler
  import P = MrProgress

  // ---------------------------------------------------------------- a reduction and a sort exist

  lemma {:induction false} EmitRest(reds: seq<Line>, kvs: map<string, seq<string>>, done: set<string>,
                                    f: (string, seq<string>) -> string) returns (all: seq<Line>)
    requires done <= kvs.Keys && Emitted(reds, kvs, done, f)
    ensures Emitted(all, kvs, kvs.Keys, f)
    decreases kvs.Keys - done
  {
    if kvs.Keys - done == {} {
      assert done == kvs.Keys by { assert kvs.Keys == (kvs.Keys - done) + done; }
      all := reds;
    } else {
      var k := Pick(kvs.Keys - done);
      EmitOne(reds, kvs, done, f, k);
      all := EmitRest(reds + [Line(k, f(k, kvs[k]))], kvs, done + {k}, f);
    }
  }

  /** Any pairs have a reduction. */
  lemma SomeReduction(ps: seq<KeyValue>, f: (string, seq<string>) -> string) returns (lines: seq<Line>)
    ensures Reduces(lines, ps, f)
  {
    var keys := set p | p in ps :: p.key;
    var kvs := map k | k in keys :: Values(ps, k);
    forall k ensures k in kvs <==> Values(ps, k) != [] {
      ValuesOfOne(ps, k);
      if i :| 0 <= i < |ps| && ps[i].key == k { assert ps[i] in ps; }
    }
    lines := EmitRest([], kvs, {}, f);
  }

  lemma {:induction false} LessIsStrict(a: string, b: string, c: string)
    ensures !(Less(a, b) && Less(b, a))
    ensures Less(a, b) && Less(b, c) ==> Less(a, c)
  {
    if a != "" && b != "" {
      LessIsStrict(a[1..], b[1..], if c != "" then c[1..] else "");
    }
  }

  /** A pair can be put into its place among sorted ones. */
  lemma {:induction false} Inserts(ps: seq<KeyValue>, x: KeyValue) returns (qs: seq<KeyValue>)
    requires SortedByKey(ps)
    ensures SortedByKey(qs) && multiset(qs) == multiset(ps) + multiset{x}
  {
    if ps == [] || !Less(x.key, ps[|ps| - 1].key) {
      qs := ps + [x];
      forall i | 0 <= i < |ps| ensures !Less(x.key, ps[i].key) {
        if i < |ps| - 1 { NotLess(x.key, ps[|ps| - 1].key, ps[i].key); }
      }
    } else {
      var init, y := ps[..|ps| - 1], ps[|ps| - 1];
      assert ps == init + [y];
      var r := Inserts(init, x);
      qs := r + [y];
      forall i | 0 <= i < |r| ensures !Less(y.key, r[i].key) {
        assert r[i] in multiset(init) + multiset{x};
        if r[i] == x {
          LessIsStrict(x.key, y.key, x.key);
        } else {
          var j :| 0 <= j < |init| && init[j] == r[i];
          assert ps[j] == r[i];
        }
      }
    }
  }

  /** `Less` orders backwards too: what is not less than something not less is not less. */
  lemma NotLess(a: string, b: string, c: string)
    requires !Less(a, b) && !Less(b, c)
    ensures !Less(a, c)
  {
    LessIsTotal(a, b);
    LessIsTotal(b, c);
    LessIsStrict(a, c, b);
    LessIsStrict(c, b, a);
    LessIsStrict(b, a, c);
  }

  /** Any pairs can be sorted by key. */
  lemma {:induction false} Sorts(ps: seq<KeyValue>) returns (qs: seq<KeyValue>)
    ensures SortedByKey(qs) && multiset(qs) == multiset(ps)
  {
    if ps == [] {
      qs := [];
    } else {
      assert ps == ps[..|ps| - 1] + [ps[|ps| - 1]];
      qs := Sorts(ps[..|ps| - 1]);
      qs := Inserts(qs, ps[|ps| - 1]);
    }
  }

  // ---------------------------------------------------------------- a worker can finish its task

  lemma RunExtends(job: Job, acts: seq<Action>, a: Action)
    requires job.reducers > 0
    ensures Run(job, acts + [a]) == Do(job, Run(job, acts), a)
  {
    var more := acts + [a];
    assert more[..|more| - 1] == acts && more[|more| - 1] == a;
  }

  /** Worker `u` has its task finished, and the coordinator is as it was. */
  predicate WorkerDone(s: State, t: State, u: nat) {
    t.sched == s.sched && ExecOf(t, u).Finished?
  }

  ghost predicate Finishes(job: Job, acts: seq<Action>, more: seq<Action>, u: nat)
    requires job.reducers > 0
  {
    WorkerDone(Run(job, acts), Run(job, acts + more), u)
  }

  lemma Associate(a: seq<Action>, b: seq<Action>, c: seq<Action>)
    ensures (a + b) + c == a + (b + c)
  {
  }

  lemma FinishesLater(job: Job, acts: seq<Action>, a: Action, rest: seq<Action>, u: nat)
    requires job.reducers > 0
    requires WorkerDone(Run(job, acts + [a]), Run(job, (acts + [a]) + rest), u)
    requires Run(job, acts + [a]).sched == Run(job, acts).sched
    ensures Finishes(job, acts, [a] + rest, u)
  {
    Associate(acts, [a], rest);
  }

  lemma FinishesNow(job: Job, acts: seq<Action>, a: Action, u: nat)
    requires job.reducers > 0
    requires var t := Do(job, Run(job, acts), a); t.sched == Run(job, acts).sched && ExecOf(t, u).Finished?
    ensures Finishes(job, acts, [a], u)
  {
    RunExtends(job, acts, a);
  }

  lemma {:induction false} MapFinishes(job: Job, acts: seq<Action>, u: nat) returns (more: seq<Action>)
    requires job.reducers > 0 && HasTask(Run(job, acts), u, false) && ExecOf(Run(job, acts), u).Mapping?
    ensures Finishes(job, acts, more, u)
    decreases ExecOf(Run(job, acts), u).todo.Keys
  {
    var s := Run(job, acts);
    var todo := ExecOf(s, u).todo;
    if todo.Keys == {} {
      FinishesNow(job, acts, EndMap(u), u);
      more := [EndMap(u)];
    } else {
      var h := Pick(todo.Keys);
      var a := InstallBucket(u, h);
      RunExtends(job, acts, a);
      var t := DoInstallBucket(s, u, h);
      assert ExecOf(t, u) == Mapping(todo - {h});
      var rest := MapFinishes(job, acts + [a], u);
      FinishesLater(job, acts, a, rest, u);
      more := [a] + rest;
    }
  }

  lemma {:induction false} ReduceFinishes(job: Job, acts: seq<Action>, u: nat) returns (more: seq<Action>)
    requires WellFormed(job) && HasTask(Run(job, acts), u, true) && ExecOf(Run(job, acts), u).Reading?
    ensures Finishes(job, acts, more, u)
    decreases ExecOf(Run(job, acts), u).names
  {
    var s := Run(job, acts);
    var e := ExecOf(s, u);
    if e.names == {} {
      var lines := SomeReduction(e.acc, job.reducef);
      FinishesNow(job, acts, InstallOut(u, lines), u);
      more := [InstallOut(u, lines)];
    } else {
      var name := Pick(e.names);
      ListedIsReadable(job, acts, u, name);
      var a := ReadFile(u, name);
      RunExtends(job, acts, a);
      var t := DoReadFile(s, u, name);
      assert ExecOf(t, u).names == e.names - {name};
      var rest := ReduceFinishes(job, acts + [a], u);
      FinishesLater(job, acts, a, rest, u);
      more := [a] + rest;
    }
  }

  /** A file that a reduce task has listed can be read. */
  lemma ListedIsReadable(job: Job, acts: seq<Action>, u: nat, name: FileName)
    requires WellFormed(job) && HasTask(Run(job, acts), u, true) && ExecOf(Run(job, acts), u).Reading?
    requires name in ExecOf(Run(job, acts), u).names
    ensures name in Run(job, acts).files && Run(job, acts).files[name].Pairs?
  {
    var s := Run(job, acts);
    InvHolds(job, acts);
    assert ExecOk(job, s.files, s.sched.issued[u], s.execs[u]);
    assert InterOk(job, s.files, name.task, name.bucket);
  }

  /** Whatever a worker has done of its task, it can do the rest. */
  lemma WorkerFinishes(job: Job, acts: seq<Action>, u: nat) returns (more: seq<Action>)
    requires WellFormed(job) && u in Run(job, acts).sched.issued
    ensures Finishes(job, acts, more, u)
  {
    var s := Run(job, acts);
    InvHolds(job, acts);
    match ExecOf(s, u)
    case Finished =>
      more := [];
      assert acts + [] == acts;
    case Mapping(todo) =>
      assert ExecOk(job, s.files, s.sched.issued[u], s.execs[u]);
      more := MapFinishes(job, acts, u);
    case Reading(names, acc) =>
      assert ExecOk(job, s.files, s.sched.issued[u], s.execs[u]);
      more := ReduceFinishes(job, acts, u);
    case Fresh =>
      assert S.IsTask(s.sched, s.sched.issued[u]);
      if HasTask(s, u, false) {
        more := FreshMapFinishes(job, acts, u);
      } else {
        more := FreshReduceFinishes(job, acts, u);
      }
  }

  lemma FreshMapFinishes(job: Job, acts: seq<Action>, u: nat) returns (more: seq<Action>)
    requires WellFormed(job) && HasTask(Run(job, acts), u, false) && ExecOf(Run(job, acts), u).Fresh?
    requires TaskNo(Run(job, acts), u) < |job.inputs|
    ensures Finishes(job, acts, more, u)
  {
    var a := StartMap(u, job.inputs[TaskNo(Run(job, acts), u)]);
    RunExtends(job, acts, a);
    var rest := MapFinishes(job, acts + [a], u);
    FinishesLater(job, acts, a, rest, u);
    more := [a] + rest;
  }

  lemma FreshReduceFinishes(job: Job, acts: seq<Action>, u: nat) returns (more: seq<Action>)
    requires WellFormed(job) && HasTask(Run(job, acts), u, true) && ExecOf(Run(job, acts), u).Fresh?
    ensures Finishes(job, acts, more, u)
  {
    var a := StartReduce(u);
    RunExtends(job, acts, a);
    var rest := ReduceFinishes(job, acts + [a], u);
    FinishesLater(job, acts, a, rest, u);
    more := [a] + rest;
  }

  // ---------------------------------------------------------------- the job can finish

  lemma {:induction false} ChannelsHold(job: Job, acts: seq<Action>)
    requires job.reducers > 0
    ensures P.ChannelsOk(Run(job, acts).sched)
  {
    if acts != [] {
      ChannelsHold(job, acts[..|acts| - 1]);
      ChannelStep(job, Run(job, acts[..|acts| - 1]), acts[|acts| - 1]);
    }
  }

  lemma ChannelStep(job: Job, s: State, a: Action)
    requires job.reducers > 0 && P.ChannelsOk(s.sched)
    ensures P.ChannelsOk(Do(job, s, a).sched)
  {
    if Enabled(job, s, a) && (a.Sched? || a.SignalDone?) {
      SchedChannels(s.sched, if a.Sched? then a.a else Signals(s, a.u));
    }
  }

  lemma SchedChannels(s: S.State, b: S.Action)
    requires P.ChannelsOk(s)
    ensures P.ChannelsOk(S.Do(s, b))
  {
    if S.Enabled(s, b) {
      if b.Meet? { P.MeetingStep(s, b); } else { P.RoomyStep(s, b); }
    }
  }

  /** A step of the coordinator that leaves less work. */
  lemma CoordinatorNearer(job: Job, acts: seq<Action>) returns (a: Action)
    requires WellFormed(job) && Run(job, acts).sched.phase != S.AllDone && !P.Idle(Run(job, acts).sched)
    ensures P.WorkLeft(Run(job, acts + [a]).sched) < P.WorkLeft(Run(job, acts).sched)
  {
    InvHolds(job, acts);
    ChannelsHold(job, acts);
    var b := P.AnyForward(Run(job, acts).sched);
    a := Sched(b);
    RunExtends(job, acts, a);
  }

  /** A finished worker's signal, taken by the controller. */
  lemma SignalNearer(job: Job, acts: seq<Action>, u: nat) returns (more: seq<Action>)
    requires WellFormed(job) && P.Idle(Run(job, acts).sched) && u in Run(job, acts).sched.pending
    requires ExecOf(Run(job, acts), u).Finished?
    ensures P.WorkLeft(Run(job, acts + more).sched) < P.WorkLeft(Run(job, acts).sched)
  {
    var s := Run(job, acts);
    P.CompletionForward(s.sched, u);
    RunExtends(job, acts, SignalDone(u));
    if s.sched.files > 0 {
      RunExtends(job, acts + [SignalDone(u)], Sched(S.TakeCompleted));
      more := [SignalDone(u), Sched(S.TakeCompleted)];
      assert acts + [SignalDone(u)] + [Sched(S.TakeCompleted)] == acts + more;
    } else {
      more := [SignalDone(u)];
    }
  }

  /** A worker finishes its task and signals. */
  lemma WorkerNearer(job: Job, acts: seq<Action>, u: nat) returns (more: seq<Action>)
    requires WellFormed(job) && P.Idle(Run(job, acts).sched) && u in Run(job, acts).sched.pending
    ensures P.WorkLeft(Run(job, acts + more).sched) < P.WorkLeft(Run(job, acts).sched)
  {
    PendingIsIssued(job, acts, u);
    var work := WorkerFinishes(job, acts, u);
    var rest := SignalNearer(job, acts + work, u);
    more := work + rest;
    Associate(acts, work, rest);
  }

  lemma PendingIsIssued(job: Job, acts: seq<Action>, u: nat)
    requires WellFormed(job) && u in Run(job, acts).sched.pending
    ensures u in Run(job, acts).sched.issued
  {
    InvHolds(job, acts);
  }

  lemma SomePending(job: Job, acts: seq<Action>)
    requires WellFormed(job) && Run(job, acts).sched.phase != S.AllDone && P.Idle(Run(job, acts).sched)
    ensures Run(job, acts).sched.pending.Keys != {}
  {
    InvHolds(job, acts);
    P.IdleHasPending(Run(job, acts).sched);
  }

  lemma WorkIsNatural(job: Job, acts: seq<Action>)
    requires WellFormed(job)
    ensures P.WorkLeft(Run(job, acts).sched) >= 0
  {
    InvHolds(job, acts);
    P.WorkNatural(Run(job, acts).sched);
  }

  lemma Nearer(job: Job, acts: seq<Action>) returns (more: seq<Action>)
    requires WellFormed(job) && Run(job, acts).sched.phase != S.AllDone
    ensures P.WorkBound(Run(job, acts + more).sched) < P.WorkBound(Run(job, acts).sched)
  {
    if !P.Idle(Run(job, acts).sched) {
      var a := CoordinatorNearer(job, acts);
      more := [a];
    } else {
      SomePending(job, acts);
      more := WorkerNearer(job, acts, Pick(Run(job, acts).sched.pending.Keys));
    }
    WorkIsNatural(job, acts + more);
  }

  lemma {:induction false} ReachesDone(job: Job, acts: seq<Action>) returns (more: seq<Action>)
    requires WellFormed(job)
    ensures Run(job, acts + more).sched.phase == S.AllDone
    decreases P.WorkBound(Run(job, acts).sched)
  {
    if Run(job, acts).sched.phase == S.AllDone {
      more := [];
      assert acts + [] == acts;
    } else {
      var first := Nearer(job, acts);
      var rest := ReachesDone(job, acts + first);
      more := first + rest;
      Associate(acts, first, rest);
    }
  }

  /** After any run of any job, whatever was re-executed, stalled or lost, some continuation ends with
      the coordinator done, and then the outputs are those of the sequential program on the sorted
      pairs of all inputs. */
  lemma {:induction false} JobCanFinish(job: Job, acts: seq<Action>) returns (more: seq<Action>, sorted: seq<KeyValue>)
    requires WellFormed(job)
    ensures Run(job, acts + more).sched.phase == S.AllDone
    ensures multiset(sorted) == multiset(Everything(job)) && SortedByKey(sorted)
    ensures SequentialOutput(job, Run(job, acts + more).files, Scan(sorted, 0, job.reducef))
  {
    more := ReachesDone(job, acts);
    sorted := Sorts(Everything(job));
    JobEqualsSequential(job, acts + more, sorted);
  }
}
