/** The clerk's retry loops are runs: whatever a loop does and returns, some run of the system does
    and records, so what holds of all runs holds of the loops. */
module KvLoops {
  import opened KvServer
  import opened C = Clerk
  import opened KvModel
  import opened KvRuns

  /** State `s` comes after the actions `acts` of a run with two clients. */
  ghost predicate After(acts: seq<Action>, s: State) {
    exists more :: Run(2, acts + more) == s
  }

  lemma AfterStep(acts: seq<Action>, s: State, a: Action)
    requires After(acts, s)
    ensures After(acts, Do(s, a))
  {
    var more :| Run(2, acts + more) == s;
    RunExtends(2, acts + more, a);
    assert acts + more + [a] == acts + (more + [a]);
    assert Run(2, acts + (more + [a])) == Do(s, a);
  }

  /** Client 0 is in operation `id` with the clerk of the loop, and client 1 is free. */
  ghost predicate InLoop(s: State, p: Progress, id: nat) {
    && |s.clients| == 2 && s.clients[1].Resting? && s.store == p.st
    && s.clients[0].Working? && s.clients[0].call == id && s.clients[0].clerk == p.clerk
    && id < |s.calls| && s.calls[id].op.req == p.clerk.req && s.calls[id].op.done.None?
  }

  /** A request of another client, by client 1. */
  lemma OtherCall(acts: seq<Action>, s: State, p: Progress, id: nat, req: Request) returns (t: State)
    requires After(acts, s) && InLoop(s, p, id)
    ensures After(acts, t) && InLoop(t, p.(st := Handle(p.st, req).0), id)
  {
    AfterStep(acts, s, Invoke(1, req));
    var s1 := DoInvoke(s, 1, req);
    AfterStep(acts, s1, Executes(1));
    var s2 := DoExecutes(s1, 1);
    assert s2.store == Handle(s.store, req).0 && s2.clients[1].clerk.phase.Executed? && s2.clients[0] == s.clients[0];
    assert s2.calls[id] == s.calls[id];
    AfterStep(acts, s2, Returns(1));
    t := DoReturns(s2, 1);
  }

  lemma {:induction false} OtherCalls(acts: seq<Action>, s: State, p: Progress, id: nat, reqs: seq<Request>) returns (t: State)
    requires After(acts, s) && InLoop(s, p, id)
    ensures After(acts, t) && InLoop(t, p.(st := Replay(p.st, reqs)), id)
  {
    if reqs == [] {
      t := s;
    } else {
      var init := reqs[..|reqs| - 1];
      var r := OtherCalls(acts, s, p, id, init);
      t := OtherCall(acts, r, p.(st := Replay(p.st, init)), id, reqs[|reqs| - 1]);
    }
  }

  /** The handler runs for the loop's request. */
  lemma OwnExecution(acts: seq<Action>, s: State, p: Progress, id: nat) returns (t: State)
    requires After(acts, s) && InLoop(s, p, id) && p.clerk.phase.InFlight?
    ensures After(acts, t) && InLoop(t, Progress(Exec(p.st, p.clerk).0, Exec(p.st, p.clerk).1, true), id)
  {
    AfterStep(acts, s, Executes(0));
    t := DoExecutes(s, 0);
  }

  lemma OwnResend(acts: seq<Action>, s: State, p: Progress, id: nat) returns (t: State)
    requires After(acts, s) && InLoop(s, p, id)
    ensures After(acts, t) && InLoop(t, p.(clerk := Resend(p.clerk), done := false), id)
  {
    AfterStep(acts, s, Resent(0));
    t := DoResent(s, 0);
  }

  /** One attempt of the loop. */
  lemma AttemptIsRun(acts: seq<Action>, s: State, p: Progress, id: nat, a: Attempt) returns (t: State)
    requires After(acts, s) && InLoop(s, p, id) && p.clerk.phase.InFlight?
    ensures After(acts, t) && InLoop(t, Try(p, a), id)
  {
    var p1 := p.(st := Replay(p.st, a.others));
    t := OtherCalls(acts, s, p, id, a.others);
    if a.fate.Dropped? {
      t := OwnResend(acts, t, p1, id);
    } else {
      t := OwnExecution(acts, t, p1, id);
      if a.fate.ReplyLost? {
        t := OwnResend(acts, t, Progress(Exec(p1.st, p.clerk).0, Exec(p1.st, p.clerk).1, true), id);
      }
    }
  }

  lemma {:induction false} LoopIsRun(acts: seq<Action>, req: Request, script: seq<Attempt>) returns (t: State)
    requires var s := Run(2, acts); |s.clients| == 2 && s.clients[0].Resting? && s.clients[1].Resting?
    ensures After(acts, t)
    ensures var s := Run(2, acts);
            var p := Drive(s.store, req, script);
            InLoop(t, p, |s.calls|) && (!p.done ==> p.clerk.phase.InFlight?)
  {
    var s := Run(2, acts);
    if script == [] {
      assert acts + [] == acts;
      assert Run(2, acts + []) == s;
      AfterStep(acts, s, Invoke(0, req));
      t := DoInvoke(s, 0, req);
    } else {
      var init := script[..|script| - 1];
      var p := Drive(s.store, req, init);
      t := LoopIsRun(acts, req, init);
      if !p.done { t := AttemptIsRun(acts, t, p, |s.calls|, script[|script| - 1]); }
    }
  }

  /** The loop's reply arrives and is recorded. */
  lemma LoopReturns(acts: seq<Action>, s: State, p: Progress, id: nat) returns (more: seq<Action>)
    requires After(acts, s) && InLoop(s, p, id) && p.clerk.phase.Executed?
    ensures var t := Run(2, acts + more);
            && t.store == p.st && |t.calls| == |s.calls| && t.calls[id].op.req == p.clerk.req
            && t.calls[id].op.done.Some? && t.calls[id].op.done.value.out == Result(p.clerk)
  {
    AfterStep(acts, s, Returns(0));
    var t := DoReturns(s, 0);
    more :| Run(2, acts + more) == t;
  }

  lemma {:induction false} LoopAnswer(st: Store, req: Request, script: seq<Attempt>, i: nat)
    requires FirstDelivered(script, i)
    ensures var p := Drive(st, req, script);
            && p.done && p.clerk.phase.Executed? && p.clerk.req == req
            && Answers(st, req, script, p.st, Some(Result(p.clerk)))
  {
    DriveReturns(st, req, script, i);
    DriveAnswers(st, req, script);
  }

  /** Operation `o` of the later state is the loop's, with the loop's effect and answer. */
  ghost predicate Recorded(s: State, t: State, o: nat, req: Request, script: seq<Attempt>) {
    && o < |t.calls| && t.calls[o].op.req == req && t.calls[o].op.done.Some?
    && Answers(s.store, req, script, t.store, Some(t.calls[o].op.done.value.out))
  }

  /** After any run, a loop on any script of interference and losses is part of a longer run: the
      same store, and the loop's answer as the output that the history records. So the loops'
      answers are linearizable together with everything else that happens. */
  lemma {:induction false} LoopIsRecorded(acts: seq<Action>, req: Request, script: seq<Attempt>, i: nat)
      returns (more: seq<Action>)
    requires var s := Run(2, acts); |s.clients| == 2 && s.clients[0].Resting? && s.clients[1].Resting?
    requires FirstDelivered(script, i)
    ensures Recorded(Run(2, acts), Run(2, acts + more), |Run(2, acts).calls|, req, script)
    ensures Linearizable(History(Run(2, acts + more)), req.key, true)
  {
    var s := Run(2, acts);
    var r := LoopIsRun(acts, req, script);
    LoopAnswer(s.store, req, script, i);
    more := LoopReturns(acts, r, Drive(s.store, req, script), |s.calls|);
    Linearizability(2, acts + more, req.key);
  }
}
