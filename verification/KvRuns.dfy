/** Runs of any number of clerks against one server, and their linearizability. */
module KvRuns {
  import opened KvServer
  import opened C = Clerk
  import opened KvModel

  /** A clerk operation of a run: what the history shows of it, and in `point` the handler
      run that decides it, once there is one. */
  datatype Call = Call(op: Op, point: Option<nat>)

  /** One run of a handler. */
  datatype HandlerRun = HandlerRun(call: nat, req: Request, reply: Reply, at: nat)

  /** A client is between operations, or inside clerk operation `call`; `last` is the latest
      handler run of that operation. */
  datatype Client = Resting | Working(call: nat, clerk: Clerk, last: nat)

  datatype State = State(store: Store, clients: seq<Client>, calls: seq<Call>, runs: seq<HandlerRun>, now: nat)

  /** `Resend` covers a dropped request and a lost reply, by the phase of the clerk. */
  datatype Action =
    | Invoke(c: nat, req: Request)
    | Resent(c: nat)
    | Executes(c: nat)
    | Returns(c: nat)

  function Begin(n: nat): State {
    State(map[], seq(n, _ => Resting), [], [], 0)
  }

  predicate Enabled(s: State, a: Action) {
    && a.c < |s.clients|
    && match a
       case Invoke(c, _) => s.clients[c].Resting?
       case Resent(c) => s.clients[c].Working?
       case Executes(c) => s.clients[c].Working? && s.clients[c].clerk.phase.InFlight?
       case Returns(c) => s.clients[c].Working? && s.clients[c].clerk.phase.Executed?
  }

  function SetPoint(calls: seq<Call>, i: nat, p: nat): seq<Call> {
    if i < |calls| then calls[i := calls[i].(point := Some(p))] else calls
  }

  function SetDone(calls: seq<Call>, i: nat, d: Completion): seq<Call> {
    if i < |calls| then calls[i := calls[i].(op := calls[i].op.(done := Some(d)))] else calls
  }

  predicate Unset(calls: seq<Call>, i: nat) {
    i < |calls| && calls[i].point.None?
  }

  function DoInvoke(s: State, c: nat, req: Request): State
    requires c < |s.clients|
  {
    s.(clients := s.clients[c := Working(|s.calls|, Start(req), 0)],
       calls := s.calls + [Call(Op(c, req, s.now, None), None)],
       now := s.now + 1)
  }

  function DoResent(s: State, c: nat): State
    requires c < |s.clients| && s.clients[c].Working?
  {
    s.(clients := s.clients[c := s.clients[c].(clerk := Resend(s.clients[c].clerk))], now := s.now + 1)
  }

  /** An applied Put takes effect here, whatever becomes of the reply. */
  function DoExecutes(s: State, c: nat): State
    requires c < |s.clients| && s.clients[c].Working?
  {
    var w := s.clients[c];
    var (st, ck) := Exec(s.store, w.clerk);
    State(st,
          s.clients[c := Working(w.call, ck, |s.runs|)],
          if ck.applied > w.clerk.applied then SetPoint(s.calls, w.call, |s.runs|) else s.calls,
          s.runs + [HandlerRun(w.call, w.clerk.req, ck.phase.reply, s.now)],
          s.now + 1)
  }

  /** Any other operation takes effect at the handler run whose reply it returns. */
  function DoReturns(s: State, c: nat): State
    requires c < |s.clients| && s.clients[c].Working? && s.clients[c].clerk.phase.Executed?
  {
    var w := s.clients[c];
    var calls := if Unset(s.calls, w.call) then SetPoint(s.calls, w.call, w.last) else s.calls;
    s.(clients := s.clients[c := Resting],
       calls := SetDone(calls, w.call, Completion(Result(w.clerk), s.now)),
       now := s.now + 1)
  }

  /** A disabled action changes nothing. */
  function Do(s: State, a: Action): State {
    if !Enabled(s, a) then s else
    match a
    case Invoke(c, req) => DoInvoke(s, c, req)
    case Resent(c) => DoResent(s, c)
    case Executes(c) => DoExecutes(s, c)
    case Returns(c) => DoReturns(s, c)
  }

  /** The state after a schedule of actions; every run is some schedule. */
  function Run(n: nat, acts: seq<Action>): State {
    if acts == [] then Begin(n) else Do(Run(n, acts[..|acts| - 1]), acts[|acts| - 1])
  }

  /** What a checker sees: the operations without the deciding handler runs. */
  function History(s: State): seq<Op> {
    seq(|s.calls|, i requires 0 <= i < |s.calls| => s.calls[i].op)
  }

  // ---------------------------------------------------------------- invariant

  /** The store after the given handler runs. */
  function StoreAt(runs: seq<HandlerRun>): Store {
    if runs == [] then map[] else Handle(StoreAt(runs[..|runs| - 1]), runs[|runs| - 1].req).0
  }

  /** Every recorded reply is the one the handler gave. */
  predicate Replays(runs: seq<HandlerRun>) {
    runs == [] ||
    var init, r := runs[..|runs| - 1], runs[|runs| - 1];
    Replays(init) && r.reply == Handle(StoreAt(init), r.req).1
  }

  predicate Applied(r: HandlerRun) {
    r.req.Put? && r.reply.err == OK
  }

  /** The output of a returned operation fits the reply of its deciding handler run. */
  predicate Fits(req: Request, reply: Reply, out: Reply) {
    match req
    case Get(_) => out == reply
    case Put(_, _, _) => out.err == reply.err || (out.err == ErrMaybe && reply.err != ErrNoKey)
  }

  ghost predicate StoreOk(s: State) {
    s.store == StoreAt(s.runs) && Replays(s.runs) && PositiveVersions(s.store)
  }

  /** Handler runs belong to calls, happen after them, and in order. */
  ghost predicate RunsTimed(s: State) {
    && (forall i :: 0 <= i < |s.runs| ==>
          && s.runs[i].call < |s.calls|
          && s.runs[i].req == s.calls[s.runs[i].call].op.req
          && s.calls[s.runs[i].call].op.invoked < s.runs[i].at < s.now)
    && (forall i, j :: 0 <= i < j < |s.runs| ==> s.runs[i].at < s.runs[j].at)
  }

  /** A handler run that applied a Put decides its call. */
  ghost predicate RunsDecide(s: State)
    requires RunsTimed(s)
  {
    forall i :: 0 <= i < |s.runs| && Applied(s.runs[i]) ==> s.calls[s.runs[i].call].point == Some(i)
  }

  ghost predicate RunsOk(s: State) {
    StoreOk(s) && RunsTimed(s) && RunsDecide(s)
  }

  ghost predicate CallOk(s: State, id: nat)
    requires id < |s.calls|
  {
    var call := s.calls[id];
    && call.op.invoked < s.now
    && (call.point.Some? ==>
          var p := call.point.value;
          && p < |s.runs| && s.runs[p].call == id && s.runs[p].req == call.op.req
          && (call.op.done.None? ==> Applied(s.runs[p])))
    && (call.op.done.Some? ==>
          && call.point.Some?
          && s.runs[call.point.value].at < call.op.done.value.at < s.now
          && Fits(call.op.req, s.runs[call.point.value].reply, call.op.done.value.out))
  }

  ghost predicate ClientOk(s: State, c: nat)
    requires c < |s.clients| && s.clients[c].Working?
  {
    var w := s.clients[c];
    && w.call < |s.calls|
    && var call := s.calls[w.call];
    && call.op.done.None? && call.op.client == c && call.op.req == w.clerk.req
    && ClerkOk(s.store, w.clerk)
    && (w.clerk.applied == 1 <==> call.point.Some?)
    && (w.clerk.phase.Executed? ==>
          && w.last < |s.runs| && s.runs[w.last].call == w.call && s.runs[w.last].req == w.clerk.req
          && s.runs[w.last].reply == w.clerk.phase.reply
          && (w.clerk.applied == 1 ==> w.clerk.phase.reply.err == OK || !w.clerk.first))
  }

  ghost predicate Inv(s: State) {
    && RunsOk(s)
    && (forall id :: 0 <= id < |s.calls| ==> CallOk(s, id))
    && (forall c :: 0 <= c < |s.clients| && s.clients[c].Working? ==> ClientOk(s, c))
  }

  lemma RunsExtend(runs: seq<HandlerRun>, r: HandlerRun)
    requires Replays(runs) && r.reply == Handle(StoreAt(runs), r.req).1
    ensures StoreAt(runs + [r]) == Handle(StoreAt(runs), r.req).0
    ensures Replays(runs + [r])
  {
    assert (runs + [r])[..|runs|] == runs;
  }

  lemma {:induction false} ReplyAt(runs: seq<HandlerRun>, i: nat)
    requires Replays(runs) && i < |runs|
    ensures runs[i].reply == Handle(StoreAt(runs[..i]), runs[i].req).1
    ensures StoreAt(runs[..i + 1]) == Handle(StoreAt(runs[..i]), runs[i].req).0
  {
    var init := runs[..|runs| - 1];
    if i < |init| {
      ReplyAt(init, i);
      assert init[..i] == runs[..i] && init[..i + 1] == runs[..i + 1];
    } else {
      assert runs[..i + 1] == runs;
    }
  }

  lemma InvInvoke(s: State, c: nat, req: Request)
    requires Inv(s) && Enabled(s, Invoke(c, req))
    ensures Inv(DoInvoke(s, c, req))
  {
    var t := DoInvoke(s, c, req);
    forall id | 0 <= id < |t.calls| ensures CallOk(t, id) {
      if id < |s.calls| { assert CallOk(s, id); }
    }
    forall d | 0 <= d < |t.clients| && t.clients[d].Working? ensures ClientOk(t, d) {
      if d != c { assert ClientOk(s, d); }
    }
  }

  lemma InvResent(s: State, c: nat)
    requires Inv(s) && Enabled(s, Resent(c))
    ensures Inv(DoResent(s, c))
  {
    var t := DoResent(s, c);
    assert ClientOk(s, c);
    OwnStepsKeepClerkOk(s.store, s.clients[c].clerk);
    forall id | 0 <= id < |t.calls| ensures CallOk(t, id) { assert CallOk(s, id); }
    forall d | 0 <= d < |t.clients| && t.clients[d].Working? ensures ClientOk(t, d) { assert ClientOk(s, d); }
  }

  lemma ExecutesStoreOk(s: State, c: nat)
    requires StoreOk(s) && Enabled(s, Executes(c))
    ensures StoreOk(DoExecutes(s, c))
  {
    RunsExtend(s.runs, DoExecutes(s, c).runs[|s.runs|]);
    HandleEffect(s.store, s.clients[c].clerk.req);
  }

  lemma ExecutesTimed(s: State, c: nat)
    requires RunsTimed(s) && Enabled(s, Executes(c)) && ClientOk(s, c) && CallOk(s, s.clients[c].call)
    ensures RunsTimed(DoExecutes(s, c))
  {
    var t := DoExecutes(s, c);
    assert forall i :: 0 <= i < |s.calls| ==> t.calls[i].op == s.calls[i].op;
  }

  lemma ExecutesDecide(s: State, c: nat)
    requires RunsTimed(s) && RunsDecide(s) && Enabled(s, Executes(c)) && ClientOk(s, c)
    requires RunsTimed(DoExecutes(s, c))
    ensures RunsDecide(DoExecutes(s, c))
  {
    var t := DoExecutes(s, c);
    OwnStepsKeepClerkOk(s.store, s.clients[c].clerk);
    forall i | 0 <= i < |t.runs| && Applied(t.runs[i]) ensures t.calls[t.runs[i].call].point == Some(i) {
      if i < |s.runs| {
        assert s.calls[s.runs[i].call].point == Some(i);
      }
    }
  }

  lemma ExecutesRunsOk(s: State, c: nat)
    requires RunsOk(s) && Enabled(s, Executes(c)) && ClientOk(s, c) && CallOk(s, s.clients[c].call)
    ensures RunsOk(DoExecutes(s, c))
  {
    ExecutesStoreOk(s, c);
    ExecutesTimed(s, c);
    ExecutesDecide(s, c);
  }

  lemma ExecutesCallOk(s: State, c: nat, id: nat)
    requires Inv(s) && Enabled(s, Executes(c)) && id < |s.calls|
    ensures CallOk(DoExecutes(s, c), id)
  {
    var w := s.clients[c];
    assert ClientOk(s, c) && CallOk(s, id);
    OwnStepsKeepClerkOk(s.store, w.clerk);
  }

  lemma ExecutesClientOk(s: State, c: nat, d: nat)
    requires Inv(s) && Enabled(s, Executes(c)) && d < |s.clients| && s.clients[d].Working?
    ensures ClientOk(DoExecutes(s, c), d)
  {
    var w := s.clients[c];
    assert ClientOk(s, c) && ClientOk(s, d);
    OwnStepsKeepClerkOk(s.store, w.clerk);
    OthersKeepClerkOk(s.store, s.clients[d].clerk, w.clerk.req);
  }

  lemma InvExecutes(s: State, c: nat)
    requires Inv(s) && Enabled(s, Executes(c))
    ensures Inv(DoExecutes(s, c))
  {
    var t := DoExecutes(s, c);
    assert ClientOk(s, c) && CallOk(s, s.clients[c].call);
    ExecutesRunsOk(s, c);
    forall id | 0 <= id < |t.calls| ensures CallOk(t, id) { ExecutesCallOk(s, c, id); }
    forall d | 0 <= d < |t.clients| && t.clients[d].Working? ensures ClientOk(t, d) { ExecutesClientOk(s, c, d); }
  }

  lemma ReturnsRunsOk(s: State, c: nat)
    requires Inv(s) && Enabled(s, Returns(c))
    ensures RunsOk(DoReturns(s, c))
  {
    var t := DoReturns(s, c);
    assert ClientOk(s, c);
    forall i | 0 <= i < |t.runs| && Applied(t.runs[i]) ensures t.calls[t.runs[i].call].point == Some(i) {
      assert s.calls[s.runs[i].call].point == Some(i);
    }
  }

  lemma ReturnsCallOk(s: State, c: nat, id: nat)
    requires Inv(s) && Enabled(s, Returns(c)) && id < |s.calls|
    ensures CallOk(DoReturns(s, c), id)
  {
    assert ClientOk(s, c) && CallOk(s, id);
  }

  lemma InvReturns(s: State, c: nat)
    requires Inv(s) && Enabled(s, Returns(c))
    ensures Inv(DoReturns(s, c))
  {
    var t := DoReturns(s, c);
    ReturnsRunsOk(s, c);
    assert ClientOk(s, c);
    forall id | 0 <= id < |t.calls| ensures CallOk(t, id) { ReturnsCallOk(s, c, id); }
    forall d | 0 <= d < |t.clients| && t.clients[d].Working? ensures ClientOk(t, d) { assert ClientOk(s, d); }
  }

  lemma {:induction false} InvHolds(n: nat, acts: seq<Action>)
    ensures Inv(Run(n, acts))
  {
    if acts != [] {
      InvHolds(n, acts[..|acts| - 1]);
      var s, a := Run(n, acts[..|acts| - 1]), acts[|acts| - 1];
      if Enabled(s, a) {
        match a
        case Invoke(c, req) => InvInvoke(s, c, req);
        case Resent(c) => InvResent(s, c);
        case Executes(c) => InvExecutes(s, c);
        case Returns(c) => InvReturns(s, c);
      }
    }
  }

  // ---------------------------------------------------------------- linearizability

  predicate Decides(s: State, key: string, i: nat)
    requires i < |s.runs|
  {
    var r := s.runs[i];
    r.req.key == key && r.call < |s.calls| && s.calls[r.call].point == Some(i)
  }

  /** The deciding handler runs of a key, in the order in which the server ran them. */
  function Deciding(s: State, key: string, n: nat): (ds: seq<nat>)
    requires n <= |s.runs|
    ensures forall k :: 0 <= k < |ds| ==> ds[k] < n && Decides(s, key, ds[k])
    ensures forall k, l :: 0 <= k < l < |ds| ==> ds[k] < ds[l]
    ensures forall i :: 0 <= i < n && Decides(s, key, i) ==> i in ds
  {
    if n == 0 then [] else
    Deciding(s, key, n - 1) + (if Decides(s, key, n - 1) then [n - 1] else [])
  }

  function Place(s: State, i: nat): Placed {
    if i < |s.runs| then Placed(s.runs[i].call, s.runs[i].at) else Placed(0, 0)
  }

  function Order(s: State, key: string, n: nat): (order: seq<Placed>)
    requires n <= |s.runs|
    ensures forall i :: 0 <= i < |order| ==> order[i].op < |s.calls|
  {
    var ds := Deciding(s, key, n);
    seq(|ds|, k requires 0 <= k < |ds| => Place(s, ds[k]))
  }

  /** A missing key is the empty value at version 0. */
  function Abstract(st: Store, key: string): KvState {
    if key in st then KvState(st[key].val, st[key].ver) else INIT
  }

  lemma {:induction false} StorePositive(runs: seq<HandlerRun>)
    ensures PositiveVersions(StoreAt(runs))
  {
    if runs != [] {
      StorePositive(runs[..|runs| - 1]);
      HandleEffect(StoreAt(runs[..|runs| - 1]), runs[|runs| - 1].req);
    }
  }

  /** A deciding handler run is a step that the sharper specification accepts. */
  lemma DecidingStep(s: State, key: string, i: nat)
    requires Inv(s) && i < |s.runs| && Decides(s, key, i)
    ensures StrictStep(Abstract(StoreAt(s.runs[..i]), key), s.runs[i].req, Output(s.calls[s.runs[i].call].op))
            == (true, Abstract(StoreAt(s.runs[..i + 1]), key))
  {
    ReplyAt(s.runs, i);
    StorePositive(s.runs[..i]);
    HandleEffect(StoreAt(s.runs[..i]), s.runs[i].req);
    assert CallOk(s, s.runs[i].call);
  }

  /** Every other handler run leaves the key as it is. */
  lemma OtherStep(s: State, key: string, i: nat)
    requires Inv(s) && i < |s.runs| && !Decides(s, key, i)
    ensures Abstract(StoreAt(s.runs[..i + 1]), key) == Abstract(StoreAt(s.runs[..i]), key)
  {
    ReplyAt(s.runs, i);
    StorePositive(s.runs[..i]);
    HandleEffect(StoreAt(s.runs[..i]), s.runs[i].req);
    assert Applied(s.runs[i]) ==> s.runs[i].req.key != key;
  }

  lemma OrderExtends(s: State, key: string, n: nat)
    requires 0 < n <= |s.runs|
    ensures Order(s, key, n) == Order(s, key, n - 1) + (if Decides(s, key, n - 1) then [Place(s, n - 1)] else [])
  {
  }

  /** The sharper specification, run over the deciding handler runs only, tracks the store. */
  lemma {:induction false} OrderAccepted(s: State, key: string, n: nat)
    requires Inv(s) && n <= |s.runs|
    ensures Accepted(History(s), Order(s, key, n), true) == Some(Abstract(StoreAt(s.runs[..n]), key))
  {
    if n == 0 {
      assert Order(s, key, 0) == [] && s.runs[..0] == [];
    } else {
      OrderAccepted(s, key, n - 1);
      AcceptOne(s, key, n, Abstract(StoreAt(s.runs[..n - 1]), key), Abstract(StoreAt(s.runs[..n]), key));
    }
  }

  lemma AcceptOne(s: State, key: string, n: nat, before: KvState, after: KvState)
    requires Inv(s) && 0 < n <= |s.runs|
    requires before == Abstract(StoreAt(s.runs[..n - 1]), key) && after == Abstract(StoreAt(s.runs[..n]), key)
    requires Accepted(History(s), Order(s, key, n - 1), true) == Some(before)
    ensures Accepted(History(s), Order(s, key, n), true) == Some(after)
  {
    OrderExtends(s, key, n);
    if Decides(s, key, n - 1) {
      DecidingStep(s, key, n - 1);
      AcceptedExtends(History(s), Order(s, key, n - 1), Place(s, n - 1), before);
    } else {
      OtherStep(s, key, n - 1);
      assert Order(s, key, n) == Order(s, key, n - 1);
    }
  }

  /** Every run of any number of clerks is linearizable on every key, on values, versions and errors. */
  lemma Linearizability(n: nat, acts: seq<Action>, key: string)
    ensures Linearizable(History(Run(n, acts)), key, true)
  {
    var s := Run(n, acts);
    InvHolds(n, acts);
    OrderWellPlaced(s, key);
    OrderAccepted(s, key, |s.runs|);
    assert Linearizes(History(s), key, Order(s, key, |s.runs|), true);
  }

  lemma OrderPlaced(s: State, key: string, k: nat)
    requires Inv(s) && k < |Order(s, key, |s.runs|)|
    ensures var p := Order(s, key, |s.runs|)[k]; var op := s.calls[p.op].op;
            && op.req.key == key && op.invoked < p.at
            && (op.done.Some? ==> p.at < op.done.value.at) && (op.done.None? ==> op.req.Put?)
  {
    var i := Deciding(s, key, |s.runs|)[k];
    assert Decides(s, key, i);
    assert CallOk(s, s.runs[i].call);
  }

  lemma OrderComplete(s: State, key: string, o: nat) returns (k: nat)
    requires Inv(s) && o < |s.calls| && s.calls[o].op.req.key == key && s.calls[o].op.done.Some?
    ensures k < |Order(s, key, |s.runs|)| && Order(s, key, |s.runs|)[k].op == o
  {
    assert CallOk(s, o);
    var ds, p := Deciding(s, key, |s.runs|), s.calls[o].point.value;
    assert Decides(s, key, p);
    k :| 0 <= k < |ds| && ds[k] == p;
  }

  lemma OrderWellPlaced(s: State, key: string)
    requires Inv(s)
    ensures WellPlaced(History(s), key, Order(s, key, |s.runs|))
  {
    var ds, order, h := Deciding(s, key, |s.runs|), Order(s, key, |s.runs|), History(s);
    forall k | 0 <= k < |order|
      ensures var op := h[order[k].op];
              && op.req.key == key && op.invoked < order[k].at
              && (op.done.Some? ==> order[k].at < op.done.value.at) && (op.done.None? ==> op.req.Put?)
    {
      OrderPlaced(s, key, k);
    }
    forall k, l | 0 <= k < l < |order| ensures order[k].at < order[l].at && order[k].op != order[l].op {
      assert Decides(s, key, ds[k]) && Decides(s, key, ds[l]);
    }
    forall o | 0 <= o < |h| && h[o].req.key == key && h[o].done.Some?
      ensures exists k :: 0 <= k < |order| && order[k].op == o
    {
      var k := OrderComplete(s, key, o);
    }
  }

  /** A Put on the key returned ErrNoKey. */
  ghost predicate SawNoKey(h: seq<Op>, key: string) {
    exists o :: 0 <= o < |h| && h[o].req.key == key && h[o].req.Put? && h[o].done.Some? && h[o].done.value.out.err == ErrNoKey
  }

  /** Against the model as written, a key of a run is linearizable exactly when no Put on it
      returned ErrNoKey: the model has no such outcome. */
  lemma ModelLinearizability(n: nat, acts: seq<Action>, key: string)
    ensures Linearizable(History(Run(n, acts)), key, false) <==> !SawNoKey(History(Run(n, acts)), key)
  {
    var s := Run(n, acts);
    var h := History(s);
    if !SawNoKey(h, key) {
      Linearizability(n, acts, key);
      var order: seq<Placed> :| Linearizes(h, key, order, true);
      StrictImpliesModel(h, order);
      assert Linearizes(h, key, order, false);
    } else if Linearizable(h, key, false) {
      var order: seq<Placed> :| Linearizes(h, key, order, false);
      var o :| 0 <= o < |h| && h[o].req.key == key && h[o].req.Put? && h[o].done.Some? && h[o].done.value.out.err == ErrNoKey;
      var i :| 0 <= i < |order| && order[i].op == o;
      ModelRefusesNoKey(h, order, i);
    }
  }

  /** The clients' discipline: a Put with a non-zero version is sent only to an existing key. */
  predicate Disciplined(n: nat, acts: seq<Action>) {
    acts == [] ||
    var s, a := Run(n, acts[..|acts| - 1]), acts[|acts| - 1];
    && Disciplined(n, acts[..|acts| - 1])
    && (Enabled(s, a) && a.Invoke? && a.req.Put? && a.req.ver > 0 ==> a.req.key in s.store)
  }

  /** Under the discipline no Put ever returns ErrNoKey, so the model accepts every run. */
  lemma DisciplinedLinearizability(n: nat, acts: seq<Action>, key: string)
    requires Disciplined(n, acts)
    ensures Linearizable(History(Run(n, acts)), key, false)
  {
    DisciplinedHasKeys(n, acts);
    var s := Run(n, acts);
    forall o | 0 <= o < |History(s)| && History(s)[o].req.Put? && History(s)[o].done.Some?
      ensures History(s)[o].done.value.out.err != ErrNoKey
    {
      assert HasKey(s, o);
    }
    ModelLinearizability(n, acts, key);
  }

  /** A Put that was called met, or will meet, an existing key unless it creates it. */
  ghost predicate HasKey(s: State, o: nat)
    requires o < |s.calls|
  {
    var op := s.calls[o].op;
    op.req.Put? ==>
      && (op.req.ver > 0 ==> op.req.key in s.store)
      && (op.done.Some? ==> op.done.value.out.err != ErrNoKey)
  }

  ghost predicate NoNoKeyReply(w: Client) {
    w.Working? && w.clerk.req.Put? && w.clerk.phase.Executed? ==> w.clerk.phase.reply.err != ErrNoKey
  }

  ghost predicate AllHaveKeys(s: State) {
    && (forall o :: 0 <= o < |s.calls| ==> HasKey(s, o))
    && (forall c :: 0 <= c < |s.clients| ==> NoNoKeyReply(s.clients[c]))
  }

  lemma {:induction false} DisciplinedHasKeys(n: nat, acts: seq<Action>)
    requires Disciplined(n, acts)
    ensures AllHaveKeys(Run(n, acts))
  {
    if acts != [] {
      DisciplinedHasKeys(n, acts[..|acts| - 1]);
      InvHolds(n, acts[..|acts| - 1]);
      var s, a := Run(n, acts[..|acts| - 1]), acts[|acts| - 1];
      if Enabled(s, a) { DisciplinedStep(s, a); }
    }
  }

  lemma DisciplinedStep(s: State, a: Action)
    requires Inv(s) && Enabled(s, a) && AllHaveKeys(s)
    requires a.Invoke? && a.req.Put? && a.req.ver > 0 ==> a.req.key in s.store
    ensures AllHaveKeys(Do(s, a))
  {
    var t := Do(s, a);
    if !a.Invoke? {
      assert ClientOk(s, a.c);
      assert HasKey(s, s.clients[a.c].call);
      HandleEffect(s.store, s.clients[a.c].clerk.req);
    }
    assert forall k :: k in s.store ==> k in t.store;
    forall o | 0 <= o < |t.calls| ensures HasKey(t, o) {
      if o < |s.calls| { assert HasKey(s, o); }
    }
  }

  /** The version of a key counts the Puts applied to it. */
  function AppliedTo(runs: seq<HandlerRun>, key: string): nat {
    if runs == [] then 0 else
    AppliedTo(runs[..|runs| - 1], key) + (if Applied(runs[|runs| - 1]) && runs[|runs| - 1].req.key == key then 1 else 0)
  }

  lemma {:induction false} VersionCountsPuts(n: nat, acts: seq<Action>, key: string)
    ensures var s := Run(n, acts); VersionOf(s.store, key) == AppliedTo(s.runs, key)
  {
    InvHolds(n, acts);
    StoreCountsPuts(Run(n, acts).runs, key);
  }

  lemma {:induction false} StoreCountsPuts(runs: seq<HandlerRun>, key: string)
    requires Replays(runs)
    ensures VersionOf(StoreAt(runs), key) == AppliedTo(runs, key)
  {
    if runs != [] {
      StoreCountsPuts(runs[..|runs| - 1], key);
      StorePositive(runs[..|runs| - 1]);
      HandleEffect(StoreAt(runs[..|runs| - 1]), runs[|runs| - 1].req);
    }
  }

  /** The handler runs that applied operation `o`. */
  function Applications(s: State, o: nat): set<nat> {
    set i: nat | i < |s.runs| && s.runs[i].call == o && Applied(s.runs[i])
  }

  /** In every run, whatever is resent: no Put is applied twice, one that returned OK was applied
      once, and one that returned ErrVersion or ErrNoKey never. */
  lemma PutOutcome(n: nat, acts: seq<Action>, o: nat)
    requires o < |Run(n, acts).calls| && Run(n, acts).calls[o].op.req.Put?
    ensures var s := Run(n, acts);
            && |Applications(s, o)| <= 1
            && (s.calls[o].op.done.Some? ==>
                  var e := s.calls[o].op.done.value.out.err;
                  && (e == OK ==> |Applications(s, o)| == 1)
                  && (e == ErrVersion || e == ErrNoKey ==> Applications(s, o) == {}))
  {
    InvHolds(n, acts);
    var s := Run(n, acts);
    assert CallOk(s, o);
    var all := Applications(s, o);
    if s.calls[o].point == None {
      assert all == {};
    } else {
      var p := s.calls[o].point.value;
      assert all == if Applied(s.runs[p]) then {p} else {};
    }
  }

  lemma RunExtends(n: nat, acts: seq<Action>, a: Action)
    ensures Run(n, acts + [a]) == Do(Run(n, acts), a)
  {
    assert (acts + [a])[..|acts|] == acts;
  }

  /** A new call has its reply. */
  lemma CalledAndExecuted(s: State, c: nat, req: Request)
    requires c < |s.clients| && s.clients[c].Resting?
    ensures var t := DoExecutes(DoInvoke(s, c, req), c);
            && |t.clients| == |s.clients| && |t.calls| == |s.calls| + 1 && t.store == Handle(s.store, req).0
            && (forall o :: 0 <= o < |s.calls| ==> t.calls[o] == s.calls[o])
            && t.calls[|s.calls|].op.req == req
            && t.clients[c].Working? && t.clients[c].call == |s.calls| && t.clients[c].clerk.req == req
            && t.clients[c].clerk.first && t.clients[c].clerk.phase == Executed(Handle(s.store, req).1)
  {
    var s1 := DoInvoke(s, c, req);
    assert s1.clients[c] == Working(|s.calls|, Start(req), 0) && s1.store == s.store;
  }

  /** A request called, executed and returned at once, on a network that loses nothing: after any
      run it gets exactly the handler's reply on the store as it is. */
  lemma CallAtOnce(n: nat, acts: seq<Action>, c: nat, req: Request)
    requires Enabled(Run(n, acts), Invoke(c, req))
    ensures var s, t := Run(n, acts), Run(n, acts + [Invoke(c, req)] + [Executes(c)] + [Returns(c)]);
            && |t.calls| == |s.calls| + 1 && t.store == Handle(s.store, req).0
            && (forall o :: 0 <= o < |s.calls| ==> t.calls[o] == s.calls[o])
            && t.calls[|s.calls|].op.req == req
            && t.calls[|s.calls|].op.done.Some? && t.calls[|s.calls|].op.done.value.out == Handle(s.store, req).1
  {
    var s := Run(n, acts);
    RunExtends(n, acts, Invoke(c, req));
    assert Run(n, acts + [Invoke(c, req)]) == DoInvoke(s, c, req);
    RunExtends(n, acts + [Invoke(c, req)], Executes(c));
    var s2 := DoExecutes(DoInvoke(s, c, req), c);
    assert Run(n, acts + [Invoke(c, req)] + [Executes(c)]) == s2;
    CalledAndExecuted(s, c, req);
    RunExtends(n, acts + [Invoke(c, req)] + [Executes(c)], Returns(c));
  }

  /** The discipline is exact, call by call: in every reachable state, the model accepts a key's
      history with one more Put on it exactly when it accepted it so far and the Put has version
      0 or finds the key. */
  lemma {:induction false} DisciplineIsExact(n: nat, acts: seq<Action>, c: nat, req: Request)
    requires Enabled(Run(n, acts), Invoke(c, req)) && req.Put?
    ensures Linearizable(History(Run(n, acts + [Invoke(c, req)] + [Executes(c)] + [Returns(c)])), req.key, false)
            <==> Linearizable(History(Run(n, acts)), req.key, false) && (req.ver == 0 || req.key in Run(n, acts).store)
  {
    var acts' := acts + [Invoke(c, req)] + [Executes(c)] + [Returns(c)];
    CallAtOnce(n, acts, c, req);
    ModelLinearizability(n, acts, req.key);
    ModelLinearizability(n, acts', req.key);
    var s, t := Run(n, acts), Run(n, acts');
    SawNoKeyMore(s, t, req);
  }

  lemma SawNoKeyMore(s: State, t: State, req: Request)
    requires |t.calls| == |s.calls| + 1 && req.Put?
    requires forall o :: 0 <= o < |s.calls| ==> t.calls[o] == s.calls[o]
    requires var op := t.calls[|s.calls|].op;
             op.req == req && op.done.Some? && op.done.value.out == Handle(s.store, req).1
    ensures SawNoKey(History(t), req.key) <==>
              SawNoKey(History(s), req.key) || (req.ver > 0 && req.key !in s.store)
  {
    var h, h' := History(s), History(t);
    assert h'[..|h|] == h;
    var err := h'[|h|].done.value.out.err;
    assert err == ErrNoKey <==> req.ver > 0 && req.key !in s.store;
    if SawNoKey(h, req.key) {
      var o :| 0 <= o < |h| && h[o].req.key == req.key && h[o].req.Put? && h[o].done.Some? && h[o].done.value.out.err == ErrNoKey;
      assert h'[o] == h[o];
    }
  }

  /** An undisciplined call in any reachable state leads to a history that the model refuses. */
  lemma {:induction false} UndisciplinedIsRefused(n: nat, acts: seq<Action>, c: nat, req: Request)
    requires Enabled(Run(n, acts), Invoke(c, req)) && req.Put? && req.ver > 0 && req.key !in Run(n, acts).store
    ensures !Linearizable(History(Run(n, acts + [Invoke(c, req)] + [Executes(c)] + [Returns(c)])), req.key, false)
  {
    DisciplineIsExact(n, acts, c, req);
  }

  /** The simplest such run: one client, one Put at version 1. */
  lemma NoKeyRun()
    ensures var acts := [Invoke(0, Put("y", EMPTY, 1)), Executes(0), Returns(0)];
            !Linearizable(History(Run(1, acts)), "y", false)
  {
    var put := Put("y", EMPTY, 1);
    UndisciplinedIsRefused(1, [], 0, put);
    assert [] + [Invoke(0, put)] + [Executes(0)] + [Returns(0)] == [Invoke(0, put), Executes(0), Returns(0)];
  }
}
