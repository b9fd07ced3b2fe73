/** The retrying clerk. A `Call` is dropped, or its handler runs once and then the reply
    is lost or delivered; which of these happens is decided only after the handler ran. */
module Clerk {
  import opened KvServer

  datatype Phase = InFlight | Executed(reply: Reply)

  /** A clerk operation in progress. `applied` is a history variable: how often the
      server has answered OK to a handler run of this Put. */
  datatype Clerk = Clerk(req: Request, first: bool, applied: nat, phase: Phase)

  function Start(req: Request): Clerk {
    Clerk(req, true, 0, InFlight)
  }

  /** `Call` returned false: the request was dropped, or the reply of an executed one was lost. */
  function Resend(c: Clerk): Clerk {
    c.(first := false, phase := InFlight)
  }

  function Exec(st: Store, c: Clerk): (Store, Clerk) {
    var (st', r) := Handle(st, c.req);
    (st', c.(applied := c.applied + (if c.req.Put? && r.err == OK then 1 else 0), phase := Executed(r)))
  }

  /** What the clerk returns to the application when `Call` returns true. */
  function Result(c: Clerk): Reply
    requires c.phase.Executed?
  {
    if c.req.Put? && c.phase.reply.err == ErrVersion && !c.first then PutReply(ErrMaybe) else c.phase.reply
  }

  /** What a clerk in progress knows about the store, whatever other clerks do meanwhile. */
  ghost predicate ClerkOk(st: Store, c: Clerk) {
    && PositiveVersions(st)
    && c.applied <= 1
    && (c.req.Get? ==> c.applied == 0)
    && (c.applied == 1 ==> VersionOf(st, c.req.key) > c.req.ver)
    && (c.phase.InFlight? && c.first ==> c.applied == 0)
    && (c.phase.Executed? ==>
          var r := c.phase.reply;
          && r.err != ErrMaybe
          && (c.req.Get? ==> r.err == OK || r.err == ErrNoKey)
          && (c.req.Put? && r.err == OK ==> c.applied == 1)
          && (c.req.Put? && r.err == ErrNoKey ==> c.applied == 0)
          && (c.req.Put? && r.err == ErrVersion && c.first ==> c.applied == 0))
  }

  /** Every step of any clerk keeps what this clerk knows. */
  lemma OthersKeepClerkOk(st: Store, c: Clerk, other: Request)
    requires ClerkOk(st, c)
    ensures ClerkOk(Handle(st, other).0, c)
  {
    HandleEffect(st, other);
  }

  lemma OwnStepsKeepClerkOk(st: Store, c: Clerk)
    requires ClerkOk(st, c)
    ensures ClerkOk(st, Resend(c))
    ensures c.phase.InFlight? ==> var (st', c') := Exec(st, c); ClerkOk(st', c')
  {
    HandleEffect(st, c.req);
  }

  /** OK means applied exactly once, ErrVersion and ErrNoKey never, ErrMaybe at most once. */
  lemma ResultMeaning(st: Store, c: Clerk)
    requires ClerkOk(st, c) && c.phase.Executed? && c.req.Put?
    ensures var e := Result(c).err;
            && (e == OK ==> c.applied == 1)
            && (e == ErrVersion || e == ErrNoKey ==> c.applied == 0)
            && (e == ErrMaybe ==> c.applied <= 1 && !c.first)
  {
  }

  /** The network's verdict on one `Call`, and what other clients get executed before it. */
  datatype Fate = Dropped | ReplyLost | Delivered
  datatype Attempt = Attempt(others: seq<Request>, fate: Fate)

  function Replay(st: Store, reqs: seq<Request>): Store {
    if reqs == [] then st else Handle(Replay(st, reqs[..|reqs| - 1]), reqs[|reqs| - 1]).0
  }

  datatype Progress = Progress(st: Store, clerk: Clerk, done: bool)

  /** One iteration of the retry loop as clerk steps. */
  function Try(p: Progress, a: Attempt): Progress {
    var st1 := Replay(p.st, a.others);
    if a.fate.Dropped? then Progress(st1, Resend(p.clerk), false) else
    var (st2, c) := Exec(st1, p.clerk);
    if a.fate.ReplyLost? then Progress(st2, Resend(c), false) else Progress(st2, c, true)
  }

  /** The retry loop as clerk steps, against any script of interference and network verdicts. */
  function Drive(st: Store, req: Request, script: seq<Attempt>): (p: Progress)
    ensures p.done ==> p.clerk.phase.Executed?
  {
    if script == [] then Progress(st, Start(req), false) else
    var p := Drive(st, req, script[..|script| - 1]);
    if p.done then p else Try(p, script[|script| - 1])
  }

  lemma {:induction false} ReplayKeepsClerkOk(st: Store, c: Clerk, reqs: seq<Request>)
    requires ClerkOk(st, c)
    ensures ClerkOk(Replay(st, reqs), c)
  {
    if reqs != [] {
      ReplayKeepsClerkOk(st, c, reqs[..|reqs| - 1]);
      OthersKeepClerkOk(Replay(st, reqs[..|reqs| - 1]), c, reqs[|reqs| - 1]);
    }
  }

  /** For every script: whenever the loop returns, its error says how often the Put was applied. */
  lemma {:induction false} DriveMeaning(st: Store, req: Request, script: seq<Attempt>)
    requires PositiveVersions(st)
    ensures var p := Drive(st, req, script);
            && p.clerk.req == req && ClerkOk(p.st, p.clerk)
            && (p.clerk.phase.Executed? <==> p.done)
            && (p.done && req.Put? ==>
                  var e := Result(p.clerk).err;
                  && (e == OK ==> p.clerk.applied == 1)
                  && (e == ErrVersion || e == ErrNoKey ==> p.clerk.applied == 0)
                  && p.clerk.applied <= 1)
  {
    if script != [] {
      var init, a := script[..|script| - 1], script[|script| - 1];
      DriveMeaning(st, req, init);
      var p := Drive(st, req, init);
      if !p.done {
        ReplayKeepsClerkOk(p.st, p.clerk, a.others);
        OwnStepsKeepClerkOk(Replay(p.st, a.others), p.clerk);
        if !a.fate.Dropped? {
          var (st2, c) := Exec(Replay(p.st, a.others), p.clerk);
          OwnStepsKeepClerkOk(st2, c);
        }
      }
    }
  }

  /** The requests that reach the server during one attempt, in order. */
  function ReachedIn(req: Request, a: Attempt): seq<Request> {
    if a.fate.Dropped? then a.others else a.others + [req]
  }

  /** Those of all attempts of a script. */
  function Reached(req: Request, script: seq<Attempt>): seq<Request> {
    if script == [] then [] else Reached(req, script[..|script| - 1]) + ReachedIn(req, script[|script| - 1])
  }

  /** Attempt `i` is the first one whose reply arrives. */
  ghost predicate FirstDelivered(script: seq<Attempt>, i: nat) {
    i < |script| && script[i].fate.Delivered? && forall j :: 0 <= j < i ==> !script[j].fate.Delivered?
  }

  /** What a clerk operation gives to its caller, and the store it leaves: nothing as long as no
      reply arrives; otherwise the handler's reply on the store that all requests before it left,
      except that a Put's version error on a resend is reported as ErrMaybe. */
  ghost predicate Answers(st: Store, req: Request, script: seq<Attempt>, st': Store, res: Option<Reply>) {
    && (res.Some? <==> exists i: nat :: FirstDelivered(script, i))
    && (res.None? ==> st' == Replay(st, Reached(req, script)))
    && (forall i: nat :: FirstDelivered(script, i) ==>
          var before := Replay(st, Reached(req, script[..i]) + script[i].others);
          var reply := Handle(before, req).1;
          && st' == Handle(before, req).0
          && res == Some(if req.Put? && reply.err == ErrVersion && i > 0 then PutReply(ErrMaybe) else reply))
  }

  lemma {:induction false} ReplayConcat(st: Store, a: seq<Request>, b: seq<Request>)
    ensures Replay(st, a + b) == Replay(Replay(st, a), b)
  {
    if b == [] {
      assert a + b == a;
    } else {
      ReplayConcat(st, a, b[..|b| - 1]);
      assert (a + b)[..|a + b| - 1] == a + b[..|b| - 1];
    }
  }

  lemma ReachedMore(st: Store, req: Request, script: seq<Attempt>)
    requires script != []
    ensures var init, a := script[..|script| - 1], script[|script| - 1];
            var mid := Replay(Replay(st, Reached(req, init)), a.others);
            Replay(st, Reached(req, script)) == if a.fate.Dropped? then mid else Handle(mid, req).0
  {
    var init, a := script[..|script| - 1], script[|script| - 1];
    ReplayConcat(st, Reached(req, init), ReachedIn(req, a));
    if !a.fate.Dropped? { ReplayMore(Replay(st, Reached(req, init)), a.others, req); }
  }

  lemma ReplayMore(st: Store, reqs: seq<Request>, req: Request)
    ensures Replay(st, reqs + [req]) == Handle(Replay(st, reqs), req).0
  {
    assert (reqs + [req])[..|reqs|] == reqs;
  }

  /** The steps before a reply arrives. */
  lemma {:induction false} DriveWaits(st: Store, req: Request, script: seq<Attempt>)
    requires forall j :: 0 <= j < |script| ==> !script[j].fate.Delivered?
    ensures var p := Drive(st, req, script);
            !p.done && p.st == Replay(st, Reached(req, script)) && p.clerk.req == req && (p.clerk.first <==> script == [])
  {
    if script != [] {
      var init := script[..|script| - 1];
      assert forall j :: 0 <= j < |init| ==> init[j] == script[j];
      DriveWaits(st, req, init);
      ReachedMore(st, req, script);
    }
  }

  /** The step at which it arrives. */
  lemma DriveReturns(st: Store, req: Request, script: seq<Attempt>, i: nat)
    requires FirstDelivered(script, i)
    ensures var p, before := Drive(st, req, script), Replay(st, Reached(req, script[..i]) + script[i].others);
            var reply := Handle(before, req).1;
            && p.done && p.st == Handle(before, req).0 && p.clerk.phase.Executed? && p.clerk.req == req
            && Result(p.clerk) == if req.Put? && reply.err == ErrVersion && i > 0 then PutReply(ErrMaybe) else reply
  {
    DriveWaits(st, req, script[..i]);
    ReplayConcat(st, Reached(req, script[..i]), script[i].others);
    assert script[..i + 1][..i] == script[..i];
    assert Drive(st, req, script[..i + 1]).done;
    DriveStays(st, req, script, i + 1);
  }

  /** For every store, request and script the retry loop answers as it should. */
  lemma {:induction false} DriveAnswers(st: Store, req: Request, script: seq<Attempt>)
    ensures var p := Drive(st, req, script);
            Answers(st, req, script, p.st, if p.done then Some(Result(p.clerk)) else None)
  {
    forall i: nat | FirstDelivered(script, i)
      ensures var p, before := Drive(st, req, script), Replay(st, Reached(req, script[..i]) + script[i].others);
              var reply := Handle(before, req).1;
              && p.done && p.st == Handle(before, req).0 && p.clerk.phase.Executed?
              && Result(p.clerk) == if req.Put? && reply.err == ErrVersion && i > 0 then PutReply(ErrMaybe) else reply
    {
      DriveReturns(st, req, script, i);
    }
    if !exists i: nat :: FirstDelivered(script, i) {
      NoneDelivered(script, |script|);
      DriveWaits(st, req, script);
    }
  }

  /** A Put's reply carries an error and nothing else. */
  lemma PutResult(st: Store, req: Request, script: seq<Attempt>, i: nat)
    requires req.Put? && FirstDelivered(script, i)
    ensures var p := Drive(st, req, script); p.done && Result(p.clerk) == PutReply(Result(p.clerk).err)
  {
    DriveReturns(st, req, script, i);
  }

  lemma {:induction false} PutAnswers(st: Store, key: string, val: Value, ver: nat, script: seq<Attempt>)
    ensures var p := Drive(st, Put(key, val, ver), script);
            Answers(st, Put(key, val, ver), script, p.st, if p.done then Some(PutReply(Result(p.clerk).err)) else None)
  {
    var req := Put(key, val, ver);
    var p := Drive(st, req, script);
    DriveAnswers(st, req, script);
    if p.done {
      var i: nat :| FirstDelivered(script, i);
      PutResult(st, req, script, i);
      var res: Option<Reply> := Some(Result(p.clerk));
      assert Answers(st, req, script, p.st, res) && res == Some(PutReply(Result(p.clerk).err));
    }
  }

  lemma {:induction false} NoneDelivered(script: seq<Attempt>, n: nat)
    requires n <= |script| && !exists i: nat :: FirstDelivered(script, i)
    ensures forall j :: 0 <= j < n ==> !script[j].fate.Delivered?
  {
    if n > 0 {
      NoneDelivered(script, n - 1);
      assert !FirstDelivered(script, n - 1);
    }
  }

  method RunOthers(srv: KVServer, others: seq<Request>)
    modifies srv
    ensures srv.kv == Replay(old(srv.kv), others)
  {
    for i := 0 to |others|
      invariant srv.kv == Replay(old(srv.kv), others[..i])
    {
      assert others[..i + 1][..i] == others[..i];
      match others[i]
      case Get(k) => var _ := srv.Get(k);
      case Put(k, v, ver) => var _ := srv.Put(k, v, ver);
    }
    assert others[..|others|] == others;
  }

  /** `Clerk.Put`. The source retries forever; here the loop ends when the script does. */
  method PutLoop(srv: KVServer, key: string, val: Value, ver: nat, script: seq<Attempt>) returns (res: Option<Err>)
    modifies srv
    ensures var p := Drive(old(srv.kv), Put(key, val, ver), script);
            srv.kv == p.st && res == if p.done then Some(Result(p.clerk).err) else None
    ensures Answers(old(srv.kv), Put(key, val, ver), script, srv.kv, if res.Some? then Some(PutReply(res.value)) else None)
  {
    var first := true;
    for i := 0 to |script|
      invariant var p := Drive(old(srv.kv), Put(key, val, ver), script[..i]);
                !p.done && srv.kv == p.st && first == p.clerk.first && p.clerk.req == Put(key, val, ver)
    {
      assert script[..i + 1][..i] == script[..i];
      RunOthers(srv, script[i].others);
      if script[i].fate != Dropped {
        var reply := srv.Put(key, val, ver);
        if script[i].fate == Delivered {
          DriveStays(old(srv.kv), Put(key, val, ver), script, i + 1);
          PutAnswers(old(srv.kv), key, val, ver, script);
          if reply.err == ErrVersion && !first {
            return Some(ErrMaybe);
          }
          return Some(reply.err);
        }
      }
      first := false;
    }
    assert script[..|script|] == script;
    PutAnswers(old(srv.kv), key, val, ver, script);
    return None;
  }

  /** `Clerk.Get`; the server answers only OK or ErrNoKey, so the first delivered reply returns. */
  method GetLoop(srv: KVServer, key: string, script: seq<Attempt>) returns (res: Option<Reply>)
    modifies srv
    ensures var p := Drive(old(srv.kv), Get(key), script);
            srv.kv == p.st && res == if p.done then Some(Result(p.clerk)) else None
    ensures Answers(old(srv.kv), Get(key), script, srv.kv, res)
  {
    DriveAnswers(srv.kv, Get(key), script);
    for i := 0 to |script|
      invariant var p := Drive(old(srv.kv), Get(key), script[..i]);
                !p.done && srv.kv == p.st && p.clerk.req == Get(key)
    {
      assert script[..i + 1][..i] == script[..i];
      RunOthers(srv, script[i].others);
      if script[i].fate != Dropped {
        var reply := srv.Get(key);
        if script[i].fate == Delivered && (reply.err == ErrNoKey || reply.err == OK) {
          DriveStays(old(srv.kv), Get(key), script, i + 1);
          return Some(reply);
        }
      }
    }
    assert script[..|script|] == script;
    return None;
  }

  lemma {:induction false} DriveStays(st: Store, req: Request, script: seq<Attempt>, i: nat)
    requires i <= |script| && Drive(st, req, script[..i]).done
    ensures Drive(st, req, script) == Drive(st, req, script[..i])
  {
    if i < |script| {
      var init := script[..|script| - 1];
      assert init[..i] == script[..i];
      DriveStays(st, req, init, i);
    } else {
      assert script[..i] == script;
    }
  }
}
