/** The distributed lock: MakeLock, Acquire and Release as step machines over the clerk. */
module LockProtocol {
  import opened KvServer
  import opened C = Clerk

  /** Where a lock client stands. `ver` is the version read by the loop's first Get; after an
      ErrMaybe, `applied` records how often the Put in doubt was applied (a history variable). */
  datatype Pc =
    | Making
    | Free
    | AcqGet
    | AcqPut(ver: nat)
    | AcqCheck(ver: nat, applied: nat)
    | Held
    | RelGet
    | RelPut(ver: nat)
    | RelCheck(ver: nat, applied: nat)
    | Aborted

  /** One Lock object; `clerk` is its clerk operation in progress, if any. */
  datatype Agent = Agent(name: string, id: string, pc: Pc, clerk: Option<Clerk>)

  datatype State = State(store: Store, agents: seq<Agent>)

  /** `Call` starts MakeLock, Acquire or Release, whichever is next; `Other` is any request
      of another program to a key that is not a lock name. */
  datatype Action =
    | Call(a: nat)
    | Resent(a: nat)
    | Executes(a: nat)
    | Returns(a: nat)
    | Other(req: Request)

  function Ask(ag: Agent, pc: Pc, req: Request): Agent {
    ag.(pc := pc, clerk := Some(Start(req)))
  }

  function Rest(ag: Agent, pc: Pc): Agent {
    ag.(pc := pc, clerk := None)
  }

  function Called(ag: Agent): Agent {
    match ag.pc
    case Making => Ask(ag, Making, Put(ag.name, EMPTY, 0))
    case Free => Ask(ag, AcqGet, Get(ag.name))
    case Held => Ask(ag, RelGet, Get(ag.name))
    case _ => ag
  }

  /** The code that runs when the clerk returns `out`, up to the next clerk operation. */
  function Resume(ag: Agent, out: Reply, applied: nat): Agent {
    match ag.pc
    case Making =>
      if out.err == ErrNoKey then Rest(ag, Aborted) else Rest(ag, Free)
    case AcqGet =>
      if out.err != OK || out.val == Text(ag.id) then Rest(ag, Aborted)
      else if out.val != EMPTY then Ask(ag, AcqGet, Get(ag.name))
      else Ask(ag, AcqPut(out.ver), Put(ag.name, Text(ag.id), out.ver))
    case AcqPut(ver) => (
      match out.err
      case ErrNoKey => Rest(ag, Aborted)
      case ErrVersion => Ask(ag, AcqGet, Get(ag.name))
      case OK => Rest(ag, Held)
      case ErrMaybe => Ask(ag, AcqCheck(ver, applied), Get(ag.name)))
    case AcqCheck(ver, _) =>
      if out.err == OK && out.ver == ver + 1 && out.val == Text(ag.id)
      then Rest(ag, Held) else Ask(ag, AcqGet, Get(ag.name))
    case RelGet =>
      if out.err != OK || out.val == EMPTY || out.val != Text(ag.id) then Rest(ag, Aborted)
      else Ask(ag, RelPut(out.ver), Put(ag.name, EMPTY, out.ver))
    case RelPut(ver) => (
      match out.err
      case ErrNoKey => Rest(ag, Aborted)
      case ErrVersion => Rest(ag, Aborted)
      case OK => Rest(ag, Free)
      case ErrMaybe => Ask(ag, RelCheck(ver, applied), Get(ag.name)))
    case RelCheck(ver, _) =>
      if out.err != OK || out.ver != ver || out.val != Text(ag.id)
      then Rest(ag, Free) else Ask(ag, RelGet, Get(ag.name))
    case _ => ag
  }

  datatype Config = Config(names: seq<string>, ids: seq<string>)

  ghost predicate Sized(cfg: Config) {
    |cfg.names| == |cfg.ids|
  }

  /** Ids are non-empty, and Lock objects of one name have different ids. */
  ghost predicate GoodIds(cfg: Config)
    requires Sized(cfg)
  {
    && (forall a :: 0 <= a < |cfg.ids| ==> cfg.ids[a] != "")
    && (forall a, b :: 0 <= a < b < |cfg.ids| && cfg.names[a] == cfg.names[b] ==> cfg.ids[a] != cfg.ids[b])
  }

  ghost function Begin(cfg: Config): State
    requires Sized(cfg)
  {
    State(map[], seq(|cfg.names|, i requires 0 <= i < |cfg.names| => Agent(cfg.names[i], cfg.ids[i], Making, None)))
  }

  predicate Enabled(s: State, act: Action) {
    match act
    case Call(a) => a < |s.agents| && s.agents[a].clerk.None?
    case Resent(a) => a < |s.agents| && s.agents[a].clerk.Some?
    case Executes(a) => a < |s.agents| && s.agents[a].clerk.Some? && s.agents[a].clerk.value.phase.InFlight?
    case Returns(a) => a < |s.agents| && s.agents[a].clerk.Some? && s.agents[a].clerk.value.phase.Executed?
    case Other(req) => forall a :: 0 <= a < |s.agents| ==> s.agents[a].name != req.key
  }

  function Do(s: State, act: Action): State {
    if !Enabled(s, act) then s else
    match act
    case Call(a) => s.(agents := s.agents[a := Called(s.agents[a])])
    case Resent(a) => s.(agents := s.agents[a := s.agents[a].(clerk := Some(Resend(s.agents[a].clerk.value)))])
    case Executes(a) =>
      var (st, ck) := Exec(s.store, s.agents[a].clerk.value);
      State(st, s.agents[a := s.agents[a].(clerk := Some(ck))])
    case Returns(a) =>
      var ck := s.agents[a].clerk.value;
      s.(agents := s.agents[a := Resume(s.agents[a], Result(ck), ck.applied)])
    case Other(req) => s.(store := Handle(s.store, req).0)
  }

  ghost function Run(cfg: Config, acts: seq<Action>): State
    requires Sized(cfg)
  {
    if acts == [] then Begin(cfg) else Do(Run(cfg, acts[..|acts| - 1]), acts[|acts| - 1])
  }

  // ---------------------------------------------------------------- invariant

  predicate Owns(st: Store, ag: Agent) {
    ag.name in st && st[ag.name].val == Text(ag.id)
  }

  predicate Waits(ag: Agent, req: Request) {
    ag.clerk.Some? && ag.clerk.value.req == req
  }

  /** A clerk reply that a step of the loop is about to see. */
  predicate Sees(ag: Agent) {
    ag.clerk.Some? && ag.clerk.value.phase.Executed?
  }

  ghost predicate AgentOk(st: Store, ag: Agent) {
    var n := ag.name;
    && ag.id != ""
    && (ag.clerk.Some? ==> ClerkOk(st, ag.clerk.value))
    && match ag.pc
       case Making =>
         && !Owns(st, ag)
         && (ag.clerk.Some? ==>
              && Waits(ag, Put(n, EMPTY, 0))
              && (Sees(ag) ==> n in st && ag.clerk.value.phase.reply.err != ErrNoKey))
       case Free => n in st && ag.clerk.None? && !Owns(st, ag)
       case AcqGet =>
         && n in st && !Owns(st, ag) && Waits(ag, Get(n))
         && (Sees(ag) ==>
               var r := ag.clerk.value.phase.reply;
               r.err == OK && r.val != Text(ag.id) && r.ver <= st[n].ver && (r.val == EMPTY ==> r.ver % 2 == 1))
       case AcqPut(ver) =>
         && n in st && Waits(ag, Put(n, Text(ag.id), ver)) && ver % 2 == 1 && ver <= st[n].ver
         && (Owns(st, ag) <==> ag.clerk.value.applied == 1)
         && (Owns(st, ag) ==> st[n].ver == ver + 1)
         && (Sees(ag) ==> ag.clerk.value.phase.reply.err != ErrNoKey)
       case AcqCheck(ver, applied) =>
         && n in st && Waits(ag, Get(n)) && applied <= 1
         && (Owns(st, ag) <==> applied == 1)
         && (Owns(st, ag) ==> st[n].ver == ver + 1)
         && (Sees(ag) ==>
               var r := ag.clerk.value.phase.reply;
               r.err == OK && (r.ver == ver + 1 && r.val == Text(ag.id) <==> applied == 1))
       case Held => Owns(st, ag) && ag.clerk.None?
       case RelGet =>
         && Owns(st, ag) && Waits(ag, Get(n))
         && (Sees(ag) ==> ag.clerk.value.phase.reply == Reply(Text(ag.id), st[n].ver, OK))
       case RelPut(ver) =>
         && n in st && Waits(ag, Put(n, EMPTY, ver))
         && (Owns(st, ag) <==> ag.clerk.value.applied == 0)
         && (Owns(st, ag) ==> st[n].ver == ver)
         && (Sees(ag) ==>
               var ck := ag.clerk.value;
               ck.applied == 1 && (ck.phase.reply.err == OK || (ck.phase.reply.err == ErrVersion && !ck.first)))
       case RelCheck(ver, applied) =>
         && n in st && Waits(ag, Get(n)) && applied == 1 && !Owns(st, ag) && st[n].ver > ver
         && (Sees(ag) ==> var r := ag.clerk.value.phase.reply; r.err == OK && r.ver > ver)
       case Aborted => false
  }

  /** A lock's value is the unlocked mark exactly at odd versions. */
  ghost predicate LockOk(st: Store, name: string) {
    name in st ==> (st[name].val == EMPTY <==> st[name].ver % 2 == 1)
  }

  ghost predicate Inv(cfg: Config, s: State)
    requires Sized(cfg)
  {
    && PositiveVersions(s.store)
    && |s.agents| == |cfg.names|
    && (forall a :: 0 <= a < |s.agents| ==>
          && s.agents[a].name == cfg.names[a] && s.agents[a].id == cfg.ids[a]
          && AgentOk(s.store, s.agents[a]) && LockOk(s.store, cfg.names[a]))
  }

  /** An agent's own handler run. */
  lemma OwnExecution(st: Store, ag: Agent)
    requires AgentOk(st, ag) && LockOk(st, ag.name) && ag.clerk.Some? && ag.clerk.value.phase.InFlight?
    ensures var (st', ck) := Exec(st, ag.clerk.value);
            AgentOk(st', ag.(clerk := Some(ck))) && LockOk(st', ag.name)
  {
    OwnStepsKeepClerkOk(st, ag.clerk.value);
    HandleEffect(st, ag.clerk.value.req);
  }

  /** A handler run of another agent of the same name. It takes effect only as a creation,
      as an acquisition of an unlocked lock, or as its owner's release. */
  lemma RivalExecution(st: Store, ag: Agent, rival: Agent)
    requires AgentOk(st, ag) && AgentOk(st, rival) && LockOk(st, ag.name)
    requires rival.name == ag.name && rival.id != ag.id
    requires rival.clerk.Some? && rival.clerk.value.phase.InFlight?
    ensures AgentOk(Exec(st, rival.clerk.value).0, ag)
  {
    var ck := rival.clerk.value;
    if ag.clerk.Some? { OthersKeepClerkOk(st, ag.clerk.value, ck.req); }
    HandleEffect(st, ck.req);
  }

  /** A handler run on any other key. */
  lemma DistantExecution(st: Store, ag: Agent, req: Request)
    requires AgentOk(st, ag) && req.key != ag.name && PositiveVersions(st)
    ensures AgentOk(Handle(st, req).0, ag)
    ensures LockOk(st, ag.name) ==> LockOk(Handle(st, req).0, ag.name)
  {
    if ag.clerk.Some? { OthersKeepClerkOk(st, ag.clerk.value, req); }
    HandleEffect(st, req);
  }

  // Steps that do not touch the store.

  lemma CalledOk(st: Store, ag: Agent)
    requires AgentOk(st, ag) && PositiveVersions(st) && ag.clerk.None?
    ensures AgentOk(st, Called(ag))
  {
  }

  lemma ResentOk(st: Store, ag: Agent)
    requires AgentOk(st, ag) && ag.clerk.Some?
    ensures AgentOk(st, ag.(clerk := Some(Resend(ag.clerk.value))))
  {
  }

  lemma ResumeOk(st: Store, ag: Agent)
    requires AgentOk(st, ag) && LockOk(st, ag.name) && Sees(ag)
    ensures AgentOk(st, Resume(ag, Result(ag.clerk.value), ag.clerk.value.applied))
  {
    ResultMeaningGet(st, ag.clerk.value);
  }

  lemma ResultMeaningGet(st: Store, ck: Clerk)
    requires ClerkOk(st, ck) && ck.phase.Executed?
    ensures ck.req.Get? ==> Result(ck) == ck.phase.reply
    ensures ck.req.Put? ==>
              Result(ck).err == if ck.phase.reply.err == ErrVersion && !ck.first then ErrMaybe else ck.phase.reply.err
  {
  }

  lemma Replaced(cfg: Config, s: State, a: nat, ag: Agent)
    requires Sized(cfg) && Inv(cfg, s) && a < |s.agents|
    requires ag.name == s.agents[a].name && ag.id == s.agents[a].id && AgentOk(s.store, ag)
    ensures Inv(cfg, s.(agents := s.agents[a := ag]))
  {
  }

  lemma LocalStep(cfg: Config, s: State, act: Action)
    requires Sized(cfg) && Inv(cfg, s) && Enabled(s, act) && (act.Call? || act.Resent? || act.Returns?)
    ensures Inv(cfg, Do(s, act))
  {
    var ag := s.agents[act.a];
    assert AgentOk(s.store, ag) && LockOk(s.store, ag.name);
    if act.Call? { CalledOk(s.store, ag); } else if act.Resent? { ResentOk(s.store, ag); } else { ResumeOk(s.store, ag); }
    Replaced(cfg, s, act.a, Do(s, act).agents[act.a]);
  }

  lemma InvStep(cfg: Config, s: State, act: Action)
    requires Sized(cfg) && GoodIds(cfg) && Inv(cfg, s)
    ensures Inv(cfg, Do(s, act))
  {
    if Enabled(s, act) {
      match act
      case Executes(a) => ExecutesStep(cfg, s, a);
      case Other(req) => OtherStep(cfg, s, req);
      case _ => LocalStep(cfg, s, act);
    }
  }

  lemma OtherStep(cfg: Config, s: State, req: Request)
    requires Sized(cfg) && Inv(cfg, s) && Enabled(s, Other(req))
    ensures Inv(cfg, Do(s, Other(req)))
  {
    var t := Do(s, Other(req));
    HandleEffect(s.store, req);
    forall b | 0 <= b < |t.agents| ensures AgentOk(t.store, t.agents[b]) && LockOk(t.store, cfg.names[b]) {
      DistantExecution(s.store, s.agents[b], req);
    }
  }

  lemma ExecutesStep(cfg: Config, s: State, a: nat)
    requires Sized(cfg) && GoodIds(cfg) && Inv(cfg, s) && Enabled(s, Executes(a))
    ensures Inv(cfg, Do(s, Executes(a)))
  {
    var t, req := Do(s, Executes(a)), s.agents[a].clerk.value.req;
    HandleEffect(s.store, req);
    OwnExecution(s.store, s.agents[a]);
    assert req.key == cfg.names[a];
    forall b | 0 <= b < |t.agents| && b != a ensures AgentOk(t.store, t.agents[b]) && LockOk(t.store, cfg.names[b]) {
      if cfg.names[b] == cfg.names[a] {
        RivalExecution(s.store, s.agents[b], s.agents[a]);
      } else {
        DistantExecution(s.store, s.agents[b], req);
      }
    }
  }

  lemma {:induction false} InvHolds(cfg: Config, acts: seq<Action>)
    requires Sized(cfg) && GoodIds(cfg)
    ensures Inv(cfg, Run(cfg, acts))
  {
    if acts != [] {
      InvHolds(cfg, acts[..|acts| - 1]);
      InvStep(cfg, Run(cfg, acts[..|acts| - 1]), acts[|acts| - 1]);
    }
  }

  // ---------------------------------------------------------------- results

  /** From the return of Acquire until the Release's Put takes effect at the server. */
  predicate InCritical(ag: Agent) {
    ag.pc.Held? || ag.pc.RelGet? || (ag.pc.RelPut? && ag.clerk.Some? && ag.clerk.value.applied == 0)
  }

  /** In every run, no two Lock objects of one name are inside at the same time. */
  lemma MutualExclusion(cfg: Config, acts: seq<Action>, a: nat, b: nat)
    requires Sized(cfg) && GoodIds(cfg) && a < b < |cfg.names| && cfg.names[a] == cfg.names[b]
    ensures |Run(cfg, acts).agents| == |cfg.names|
    ensures !(InCritical(Run(cfg, acts).agents[a]) && InCritical(Run(cfg, acts).agents[b]))
  {
    InvHolds(cfg, acts);
    var s := Run(cfg, acts);
    assert AgentOk(s.store, s.agents[a]) && AgentOk(s.store, s.agents[b]);
  }

  /** In every run a lock reads as unlocked exactly when its version is odd. */
  lemma UnlockedIffOdd(cfg: Config, acts: seq<Action>, a: nat)
    requires Sized(cfg) && GoodIds(cfg) && a < |cfg.names|
    ensures var st := Run(cfg, acts).store;
            cfg.names[a] in st ==> (st[cfg.names[a]].val == EMPTY <==> st[cfg.names[a]].ver % 2 == 1)
  {
    InvHolds(cfg, acts);
  }

  /** Acquire's follow-up Get shows its own id one version up exactly when the Put in doubt
      was applied; so Acquire returns exactly when this client took the lock, once. */
  lemma AcquireResolvesMaybe(cfg: Config, acts: seq<Action>, a: nat)
    requires Sized(cfg) && GoodIds(cfg) && a < |cfg.names|
    requires var s := Run(cfg, acts); a < |s.agents| && s.agents[a].pc.AcqCheck? && Sees(s.agents[a])
    ensures var ag := Run(cfg, acts).agents[a];
            var r := Result(ag.clerk.value);
            && (r.err == OK && r.ver == ag.pc.ver + 1 && r.val == Text(ag.id) <==> ag.pc.applied == 1)
            && (Do(Run(cfg, acts), Returns(a)).agents[a].pc == Held <==> ag.pc.applied == 1)
            && ag.pc.applied <= 1
  {
    InvHolds(cfg, acts);
    var s := Run(cfg, acts);
    ResultMeaningGet(s.store, s.agents[a].clerk.value);
  }

  /** When Release's Put returns, with OK or ErrMaybe, it was applied exactly once; after an
      ErrMaybe the follow-up Get always ends the loop, so the body runs once. */
  lemma ReleaseFreesOnce(cfg: Config, acts: seq<Action>, a: nat)
    requires Sized(cfg) && GoodIds(cfg) && a < |cfg.names|
    requires a < |Run(cfg, acts).agents| && Sees(Run(cfg, acts).agents[a])
    ensures var ag, ag' := Run(cfg, acts).agents[a], Do(Run(cfg, acts), Returns(a)).agents[a];
            && (ag.pc.RelPut? ==> ag.clerk.value.applied == 1 && (ag'.pc == Free || ag'.pc == RelCheck(ag.pc.ver, 1)))
            && (ag.pc.RelCheck? ==> ag.pc.applied == 1 && ag'.pc == Free)
  {
    InvHolds(cfg, acts);
    var s := Run(cfg, acts);
    ResultMeaningGet(s.store, s.agents[a].clerk.value);
  }

  ghost predicate SomeoneAborts(s: State) {
    exists a :: 0 <= a < |s.agents| && s.agents[a].pc == Aborted
  }

  ghost predicate NeverAborts(cfg: Config)
    requires Sized(cfg)
  {
    forall acts :: !SomeoneAborts(Run(cfg, acts))
  }

  /** No run reaches a `log.Fatal` exactly when the ids are non-empty and differ per name. */
  lemma NeverAbortsIff(cfg: Config)
    requires Sized(cfg)
    ensures NeverAborts(cfg) <==> GoodIds(cfg)
  {
    if GoodIds(cfg) {
      forall acts ensures !SomeoneAborts(Run(cfg, acts)) {
        InvHolds(cfg, acts);
        var s := Run(cfg, acts);
        forall a | 0 <= a < |s.agents| ensures s.agents[a].pc != Aborted {
          assert AgentOk(s.store, s.agents[a]);
        }
      }
    } else if a :| 0 <= a < |cfg.ids| && cfg.ids[a] == "" {
      var acts := MakeRun(cfg, [], a);
      acts := AbortRun(cfg, acts, a);
      assert SomeoneAborts(Run(cfg, acts));
    } else {
      var a, b :| 0 <= a < b < |cfg.ids| && cfg.names[a] == cfg.names[b] && cfg.ids[a] == cfg.ids[b];
      var acts := MakeRun(cfg, [], a);
      acts := MakeRun(cfg, acts, b);
      acts := AcquireRun(cfg, acts, a);
      acts := AbortRun(cfg, acts, b);
      assert SomeoneAborts(Run(cfg, acts));
    }
  }

  lemma RunExtends(cfg: Config, acts: seq<Action>, act: Action)
    requires Sized(cfg)
    ensures Run(cfg, acts + [act]) == Do(Run(cfg, acts), act)
  {
    assert (acts + [act])[..|acts|] == acts;
  }

  /** A MakeLock on a reliable network. */
  lemma MakeRun(cfg: Config, acts: seq<Action>, a: nat) returns (acts': seq<Action>)
    requires Sized(cfg) && a < |Run(cfg, acts).agents|
    requires PositiveVersions(Run(cfg, acts).store)
    requires var ag := Run(cfg, acts).agents[a]; ag.pc == Making && ag.clerk.None?
    ensures var s := Run(cfg, acts); var ag := s.agents[a];
            Run(cfg, acts') == State(if ag.name in s.store then s.store else s.store[ag.name := Versioned(EMPTY, 1)],
                                     s.agents[a := Rest(ag, Free)])
  {
    var a1 := acts + [Call(a)];
    var a2 := a1 + [Executes(a)];
    var s := Run(cfg, acts);
    var put := Put(s.agents[a].name, EMPTY, 0);
    HandleEffect(s.store, put);
    RunExtends(cfg, acts, Call(a));
    assert Run(cfg, a1) == s.(agents := s.agents[a := Ask(s.agents[a], Making, put)]);
    RunExtends(cfg, a1, Executes(a));
    assert Run(cfg, a2).store == Handle(s.store, put).0;
    RunExtends(cfg, a2, Returns(a));
    acts' := a2 + [Returns(a)];
  }

  /** An Acquire of an unlocked lock on a reliable network. */
  lemma AcquireRun(cfg: Config, acts: seq<Action>, a: nat) returns (acts': seq<Action>)
    requires Sized(cfg) && a < |Run(cfg, acts).agents|
    requires var s := Run(cfg, acts); var ag := s.agents[a];
             ag.pc == Free && ag.clerk.None? && ag.id != "" && ag.name in s.store && s.store[ag.name].val == EMPTY
    ensures var s := Run(cfg, acts); var ag := s.agents[a];
            Run(cfg, acts') == State(s.store[ag.name := Versioned(Text(ag.id), s.store[ag.name].ver + 1)],
                                     s.agents[a := Rest(ag, Held)])
  {
    var a1 := acts + [Call(a)];
    var a2 := a1 + [Executes(a)];
    var a3 := a2 + [Returns(a)];
    var a4 := a3 + [Executes(a)];
    RunExtends(cfg, acts, Call(a));
    RunExtends(cfg, a1, Executes(a));
    RunExtends(cfg, a2, Returns(a));
    RunExtends(cfg, a3, Executes(a));
    RunExtends(cfg, a4, Returns(a));
    acts' := a4 + [Returns(a)];
  }

  /** An Acquire that reads its own id aborts. */
  lemma AbortRun(cfg: Config, acts: seq<Action>, a: nat) returns (acts': seq<Action>)
    requires Sized(cfg) && a < |Run(cfg, acts).agents|
    requires var s := Run(cfg, acts); s.agents[a].pc == Free && s.agents[a].clerk.None? && Owns(s.store, s.agents[a])
    ensures SomeoneAborts(Run(cfg, acts'))
  {
    var a1 := acts + [Call(a)];
    var a2 := a1 + [Executes(a)];
    RunExtends(cfg, acts, Call(a));
    RunExtends(cfg, a1, Executes(a));
    RunExtends(cfg, a2, Returns(a));
    acts' := a2 + [Returns(a)];
    assert Run(cfg, acts').agents[a].pc == Aborted;
  }

  /** A Release by the holder on a reliable network. */
  lemma ReleaseRun(cfg: Config, acts: seq<Action>, a: nat) returns (acts': seq<Action>)
    requires Sized(cfg) && a < |Run(cfg, acts).agents|
    requires var s := Run(cfg, acts); var ag := s.agents[a]; ag.pc == Held && ag.clerk.None? && ag.id != "" && Owns(s.store, ag)
    ensures var s := Run(cfg, acts); var ag := s.agents[a];
            Run(cfg, acts') == State(s.store[ag.name := Versioned(EMPTY, s.store[ag.name].ver + 1)],
                                     s.agents[a := Rest(ag, Free)])
  {
    var a1 := acts + [Call(a)];
    var a2 := a1 + [Executes(a)];
    var a3 := a2 + [Returns(a)];
    var a4 := a3 + [Executes(a)];
    RunExtends(cfg, acts, Call(a));
    RunExtends(cfg, a1, Executes(a));
    RunExtends(cfg, a2, Returns(a));
    RunExtends(cfg, a3, Executes(a));
    RunExtends(cfg, a4, Returns(a));
    acts' := a4 + [Returns(a)];
  }

  lemma RestingFacts(cfg: Config, acts: seq<Action>, a: nat)
    requires Sized(cfg) && GoodIds(cfg) && a < |cfg.names| && |Run(cfg, acts).agents| == |cfg.names|
    requires Run(cfg, acts).agents[a].pc == Held || Run(cfg, acts).agents[a].pc == Free
    ensures var s := Run(cfg, acts); var ag := s.agents[a];
            && ag.name == cfg.names[a] && ag.id == cfg.ids[a] && ag.id != "" && ag.clerk.None? && ag.name in s.store
            && (ag.pc == Held ==> Owns(s.store, ag))
  {
    InvHolds(cfg, acts);
    assert AgentOk(Run(cfg, acts).store, Run(cfg, acts).agents[a]);
  }

  /** The holder of a lock can always pass it on: after any run, its Release on a reliable network
      frees the lock, and then any other client that is free can take it; each costs one version. */
  lemma {:induction false} HandOver(cfg: Config, acts: seq<Action>, a: nat, b: nat) returns (acts': seq<Action>)
    requires Sized(cfg) && GoodIds(cfg) && a < |cfg.names| && b < |cfg.names| && cfg.names[a] == cfg.names[b] && a != b
    requires |Run(cfg, acts).agents| == |cfg.names| && Run(cfg, acts).agents[a].pc == Held && Run(cfg, acts).agents[b].pc == Free
    ensures var s, t := Run(cfg, acts), Run(cfg, acts');
            && |t.agents| == |s.agents| && t.agents[a].pc == Free && t.agents[b].pc == Held
            && cfg.names[a] in s.store
            && t.store == s.store[cfg.names[a] := Versioned(Text(cfg.ids[b]), s.store[cfg.names[a]].ver + 2)]
  {
    RestingFacts(cfg, acts, a);
    RestingFacts(cfg, acts, b);
    var free := ReleaseRun(cfg, acts, a);
    acts' := AcquireRun(cfg, free, b);
  }

  /** An Acquire that loses the race for the version starts over from its first Get. */
  lemma LostRaceRetries(cfg: Config, acts: seq<Action>, a: nat)
    requires Sized(cfg) && GoodIds(cfg) && a < |cfg.names|
    requires var s := Run(cfg, acts); a < |s.agents| && s.agents[a].pc.AcqPut? && Sees(s.agents[a])
    requires Result(Run(cfg, acts).agents[a].clerk.value).err == ErrVersion
    ensures var s := Run(cfg, acts);
            && s.agents[a].clerk.value.applied == 0
            && Do(s, Returns(a)) == s.(agents := s.agents[a := Ask(s.agents[a], AcqGet, Get(cfg.names[a]))])
  {
    InvHolds(cfg, acts);
    var s := Run(cfg, acts);
    assert AgentOk(s.store, s.agents[a]);
    ResultMeaning(s.store, s.agents[a].clerk.value);
  }

  /** An Acquire that finds the lock taken asks again, and takes nothing. */
  lemma TakenKeepsWaiting(cfg: Config, acts: seq<Action>, a: nat)
    requires Sized(cfg) && GoodIds(cfg) && a < |cfg.names|
    requires var s := Run(cfg, acts); a < |s.agents| && s.agents[a].pc == AcqGet && Sees(s.agents[a])
    requires Result(Run(cfg, acts).agents[a].clerk.value).val != EMPTY
    ensures var s := Run(cfg, acts);
            Do(s, Returns(a)) == s.(agents := s.agents[a := Ask(s.agents[a], AcqGet, Get(cfg.names[a]))])
  {
    InvHolds(cfg, acts);
    var s := Run(cfg, acts);
    assert AgentOk(s.store, s.agents[a]);
    ResultMeaningGet(s.store, s.agents[a].clerk.value);
  }
}
