/** MakeLock, Acquire and Release as the loops they are, against any script of interference and
    network verdicts, and their agreement with the step machine of the lock protocol. */
module LockLoops {
  import opened KvServer
  import opened C = Clerk
  import opened LockProtocol

  /** The source's loops run on; here an operation is left unfinished when its script ends. */
  datatype End = Returned | Fatal | Unfinished

  datatype Played = Played(st: Store, agent: Agent)

  /** The lock client's steps while `scripts` lasts: one script for each clerk operation. */
  function Play(st: Store, ag: Agent, scripts: seq<seq<Attempt>>): Played
    decreases |scripts|
  {
    if ag.clerk.None? || scripts == [] then Played(st, ag) else
    var p := Drive(st, ag.clerk.value.req, scripts[0]);
    if !p.done then Played(p.st, ag)
    else Play(p.st, Resume(ag, Result(p.clerk), p.clerk.applied), scripts[1..])
  }

  function EndOf(ag: Agent): End {
    if ag.clerk.Some? then Unfinished else if ag.pc == Aborted then Fatal else Returned
  }

  lemma PlayStep(st: Store, ag: Agent, scripts: seq<seq<Attempt>>, k: nat)
    requires ag.clerk.Some? && k < |scripts|
    ensures var p := Drive(st, ag.clerk.value.req, scripts[k]);
            Play(st, ag, scripts[k..]) ==
              if !p.done then Played(p.st, ag)
              else Play(p.st, Resume(ag, Result(p.clerk), p.clerk.applied), scripts[k + 1..])
  {
    assert scripts[k..][0] == scripts[k] && scripts[k..][1..] == scripts[k + 1..];
  }

  /** The clerk's next Get in a lock operation of agent `ag`, which goes on as `next`. */
  method AskGet(srv: KVServer, name: string, scripts: seq<seq<Attempt>>, k: nat, ghost ag: Agent)
      returns (out: Option<Reply>, ghost applied: nat)
    requires k <= |scripts| && ag.name == name && ag.clerk == Some(Start(Get(name)))
    modifies srv
    ensures out.None? ==> Play(old(srv.kv), ag, scripts[k..]) == Played(srv.kv, ag)
    ensures out.Some? ==> k < |scripts|
    ensures out.Some? ==> Play(old(srv.kv), ag, scripts[k..]) == Play(srv.kv, Resume(ag, out.value, applied), scripts[k + 1..])
  {
    applied := 0;
    if k == |scripts| {
      return None, applied;
    }
    PlayStep(srv.kv, ag, scripts, k);
    applied := Drive(srv.kv, Get(name), scripts[k]).clerk.applied;
    out := GetLoop(srv, name, scripts[k]);
  }

  /** The same for a Put; the agent's code looks at the error only. */
  method AskPut(srv: KVServer, name: string, val: Value, ver: nat, scripts: seq<seq<Attempt>>, k: nat, ghost ag: Agent)
      returns (out: Option<Err>, ghost reply: Reply, ghost applied: nat)
    requires k <= |scripts| && ag.name == name && ag.clerk == Some(Start(Put(name, val, ver)))
    modifies srv
    ensures out.None? ==> Play(old(srv.kv), ag, scripts[k..]) == Played(srv.kv, ag)
    ensures out.Some? ==> k < |scripts| && reply.err == out.value
    ensures out.Some? ==> Play(old(srv.kv), ag, scripts[k..]) == Play(srv.kv, Resume(ag, reply, applied), scripts[k + 1..])
  {
    reply, applied := PutReply(OK), 0;
    if k == |scripts| {
      return None, reply, applied;
    }
    PlayStep(srv.kv, ag, scripts, k);
    ghost var p := Drive(srv.kv, Put(name, val, ver), scripts[k]);
    if p.done {
      reply, applied := Result(p.clerk), p.clerk.applied;
    }
    out := PutLoop(srv, name, val, ver, scripts[k]);
  }

  method MakeLock(srv: KVServer, name: string, id: string, scripts: seq<seq<Attempt>>) returns (end: End)
    modifies srv
    ensures var p := Play(old(srv.kv), Called(Agent(name, id, Making, None)), scripts);
            srv.kv == p.st && end == EndOf(p.agent) && (end == Returned ==> p.agent.pc == Free)
  {
    ghost var ag := Called(Agent(name, id, Making, None));
    assert scripts[0..] == scripts;
    var err, r, n := AskPut(srv, name, EMPTY, 0, scripts, 0, ag);
    if err.None? {
      return Unfinished;
    }
    if err.value == ErrNoKey {
      return Fatal;
    } else if err.value == ErrVersion {
    } else if err.value == ErrMaybe {
    } else if err.value != OK {
      return Fatal;
    }
    return Returned;
  }

  method Acquire(srv: KVServer, name: string, id: string, scripts: seq<seq<Attempt>>) returns (end: End)
    modifies srv
    ensures var p := Play(old(srv.kv), Called(Agent(name, id, Free, None)), scripts);
            srv.kv == p.st && end == EndOf(p.agent) && (end == Returned ==> p.agent.pc == Held)
  {
    ghost var start := Called(Agent(name, id, Free, None));
    assert scripts[0..] == scripts;
    var k := 0;
    while true
      invariant k <= |scripts| && Play(srv.kv, start, scripts[k..]) == Play(old(srv.kv), start, scripts)
      decreases |scripts| - k
    {
      var got, n := AskGet(srv, name, scripts, k, start);
      if got.None? {
        return Unfinished;
      }
      k := k + 1;
      if got.value.err == ErrNoKey {
        return Fatal;
      } else if got.value.err != OK {
        return Fatal;
      } else if got.value.val == Text(id) {
        return Fatal;
      } else if got.value.val != EMPTY {
        continue;
      }
      var ver := got.value.ver;
      ghost var putting := Ask(start, AcqPut(ver), Put(name, Text(id), ver));
      assert Resume(start, got.value, n) == putting;
      var err, r, m := AskPut(srv, name, Text(id), ver, scripts, k, putting);
      if err.None? {
        return Unfinished;
      }
      k := k + 1;
      if err.value == ErrNoKey {
        return Fatal;
      } else if err.value == ErrVersion {
        continue;
      } else if err.value == OK {
        break;
      }
      ghost var checking := Ask(start, AcqCheck(ver, m), Get(name));
      assert Resume(putting, r, m) == checking;
      var now, l := AskGet(srv, name, scripts, k, checking);
      if now.None? {
        return Unfinished;
      }
      k := k + 1;
      if now.value.err == OK && now.value.ver == ver + 1 && now.value.val == Text(id) {
        break;
      }
    }
    return Returned;
  }

  lemma ReleaseRead(ag: Agent, out: Reply, n: nat)
    requires ag.pc == RelGet
    ensures Resume(ag, out, n) ==
              if out.err == OK && out.val != EMPTY && out.val == Text(ag.id)
              then Ask(ag, RelPut(out.ver), Put(ag.name, EMPTY, out.ver)) else Rest(ag, Aborted)
  {
  }

  lemma ReleaseWritten(ag: Agent, out: Reply, n: nat)
    requires ag.pc.RelPut?
    ensures Resume(ag, out, n) ==
              if out.err == OK then Rest(ag, Free)
              else if out.err == ErrMaybe then Ask(ag, RelCheck(ag.pc.ver, n), Get(ag.name)) else Rest(ag, Aborted)
  {
  }

  lemma ReleaseChecked(ag: Agent, out: Reply, n: nat)
    requires ag.pc.RelCheck?
    ensures Resume(ag, out, n) ==
              if out.err == OK && out.ver == ag.pc.ver && out.val == Text(ag.id)
              then Ask(ag, RelGet, Get(ag.name)) else Rest(ag, Free)
  {
  }

  method Release(srv: KVServer, name: string, id: string, scripts: seq<seq<Attempt>>) returns (end: End)
    modifies srv
    ensures var p := Play(old(srv.kv), Called(Agent(name, id, Held, None)), scripts);
            srv.kv == p.st && end == EndOf(p.agent) && (end == Returned ==> p.agent.pc == Free)
  {
    ghost var start := Called(Agent(name, id, Held, None));
    assert scripts[0..] == scripts;
    var k := 0;
    while true
      invariant k <= |scripts| && Play(srv.kv, start, scripts[k..]) == Play(old(srv.kv), start, scripts)
      decreases |scripts| - k
    {
      var got, n := AskGet(srv, name, scripts, k, start);
      if got.None? {
        return Unfinished;
      }
      k := k + 1;
      ReleaseRead(start, got.value, n);
      if got.value.err == ErrNoKey {
        return Fatal;
      } else if got.value.err != OK {
        return Fatal;
      } else if got.value.val == EMPTY {
        return Fatal;
      } else if got.value.val != Text(id) {
        return Fatal;
      }
      var ver := got.value.ver;
      ghost var putting := Ask(start, RelPut(ver), Put(name, EMPTY, ver));
      var err, r, m := AskPut(srv, name, EMPTY, ver, scripts, k, putting);
      if err.None? {
        return Unfinished;
      }
      k := k + 1;
      ReleaseWritten(putting, r, m);
      if err.value == ErrNoKey {
        return Fatal;
      } else if err.value == ErrVersion {
        return Fatal;
      } else if err.value == OK {
        break;
      }
      ghost var checking := Ask(start, RelCheck(ver, m), Get(name));
      var now, l := AskGet(srv, name, scripts, k, checking);
      if now.None? {
        return Unfinished;
      }
      k := k + 1;
      ReleaseChecked(checking, now.value, l);
      if now.value.err != OK || now.value.ver != ver || now.value.val != Text(id) {
        break;
      }
    }
    return Returned;
  }
}
