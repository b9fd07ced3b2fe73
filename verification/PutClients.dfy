/** Concurrent OnePut clients on a list of keys, and the count of what they did. */
module PutClients {
  import opened Sets
  import opened KvServer
  import opened C = Clerk
  import opened TestCounts

  ghost predicate PutsAccepted(ver: nat, rs: seq<ClntRes>, reliable: bool) {
    if reliable then ver == Sum(Oks(rs)) else ver <= Sum(OksAndMaybes(rs))
  }

  /** The test's check of the key's final version against the clients' counts. */
  method CheckPutConcurrent(ver: nat, rs: seq<ClntRes>, reliable: bool) returns (ok: bool)
    ensures ok <==> PutsAccepted(ver, rs, reliable)
  {
    var nok, nmaybe := 0, 0;
    for i := 0 to |rs|
      invariant nok == Sum(Oks(rs[..i])) && nok + nmaybe == Sum(OksAndMaybes(rs[..i]))
    {
      nok, nmaybe := nok + rs[i].nok, nmaybe + rs[i].nmaybe;
      assert Oks(rs[..i + 1])[..i] == Oks(rs[..i]);
      assert OksAndMaybes(rs[..i + 1])[..i] == OksAndMaybes(rs[..i]);
    }
    assert rs[..|rs|] == rs;
    ok := if reliable then ver == nok else ver <= nok + nmaybe;
  }

  // ---------------------------------------------------------------- the clients

  /** `AfterPut` is the Get that follows a Put answered with `err`. */
  datatype Pc = Ready | Putting | AfterPut(err: Err) | Stopped | Failed

  /** `vers` are the versions the client believes in, `key` and `ver` those of its current OnePut;
      `puts` is a history variable, how many Puts of its finished Put operations were applied. */
  datatype Client = Client(
    vers: map<string, nat>, key: string, ver: nat, nok: nat, nmaybe: nat, puts: nat, pc: Pc, clerk: Option<Clerk>)

  datatype State = State(store: Store, clients: seq<Client>)

  /** `OnePut` starts an iteration with any key of the list. */
  datatype Action = OnePut(c: nat, key: string) | Stop(c: nat) | Resent(c: nat) | Executes(c: nat) | Returns(c: nat)

  function StartPut(me: nat, cl: Client): Client {
    cl.(pc := Putting, clerk := Some(Start(Put(cl.key, Stamp(me, cl.ver), cl.ver))))
  }

  /** The code that runs when the clerk returns to client `me`. */
  function Resume(me: nat, cl: Client, out: Reply, applied: nat): Client {
    match cl.pc
    case Putting =>
      var cl' := cl.(puts := cl.puts + applied);
      if out.err == ErrNoKey then cl'.(pc := Failed, clerk := None)
      else cl'.(pc := AfterPut(out.err), clerk := Some(Start(Get(cl.key))))
    case AfterPut(err) =>
      if out.err != OK || !out.val.Stamp? then cl.(pc := Failed, clerk := None)
      else if err == OK && out.ver == cl.ver + 1 && out.val.id != me && out.val.ver != cl.ver
      then cl.(pc := Failed, clerk := None)
      else
        var cl' := cl.(ver := out.ver, clerk := None);
        if err == OK then cl'.(vers := cl.vers[cl.key := out.ver], nok := cl.nok + 1, pc := Ready)
        else if err == ErrMaybe then cl'.(vers := cl.vers[cl.key := out.ver], nmaybe := cl.nmaybe + 1, pc := Ready)
        else StartPut(me, cl')
    case _ => cl
  }

  function Begin(keys: seq<string>, n: nat): State {
    State(map[], seq(n, _ => Client(map k | k in keys :: 0, "", 0, 0, 0, 0, Ready, None)))
  }

  predicate Enabled(s: State, a: Action) {
    a.c < |s.clients| &&
    var cl := s.clients[a.c];
    match a
    case OnePut(_, k) => cl.pc.Ready? && k in cl.vers
    case Stop(_) => cl.pc.Ready?
    case Resent(_) => cl.clerk.Some?
    case Executes(_) => cl.clerk.Some? && cl.clerk.value.phase.InFlight?
    case Returns(_) => cl.clerk.Some? && cl.clerk.value.phase.Executed?
  }

  /** What an action that does not reach the server makes of its client. */
  function Local(cl: Client, a: Action): Client
    requires !a.Executes? && (a.OnePut? ==> a.key in cl.vers)
    requires (a.Resent? ==> cl.clerk.Some?) && (a.Returns? ==> cl.clerk.Some? && cl.clerk.value.phase.Executed?)
  {
    match a
    case OnePut(c, k) => StartPut(c, cl.(key := k, ver := cl.vers[k]))
    case Stop(_) => cl.(pc := Stopped)
    case Resent(_) => cl.(clerk := Some(Resend(cl.clerk.value)))
    case Returns(c) => Resume(c, cl, Result(cl.clerk.value), cl.clerk.value.applied)
  }

  function Do(s: State, a: Action): State {
    if !Enabled(s, a) then s else
    var cl := s.clients[a.c];
    if a.Executes? then
      var (st, ck) := Exec(s.store, cl.clerk.value);
      State(st, s.clients[a.c := cl.(clerk := Some(ck))])
    else
      s.(clients := s.clients[a.c := Local(cl, a)])
  }

  function Run(keys: seq<string>, n: nat, acts: seq<Action>): State {
    if acts == [] then Begin(keys, n) else Do(Run(keys, n, acts[..|acts| - 1]), acts[|acts| - 1])
  }

  /** No message of the run is lost. */
  predicate Reliable(acts: seq<Action>) {
    forall i :: 0 <= i < |acts| ==> !acts[i].Resent?
  }

  // ---------------------------------------------------------------- invariant

  /** Puts of a client applied so far, those of the operation in progress included. */
  function Made(cl: Client): nat {
    cl.puts + if cl.clerk.Some? then cl.clerk.value.applied else 0
  }

  function AllMade(cs: seq<Client>): seq<nat> {
    seq(|cs|, c requires 0 <= c < |cs| => Made(cs[c]))
  }

  /** The versions of some keys, added up. */
  ghost function Versions(st: Store, ks: set<string>): nat {
    if ks == {} then 0 else
    var k := Pick(ks);
    Versions(st, ks - {k}) + VersionOf(st, k)
  }

  lemma {:induction false} VersionsSplit(st: Store, ks: set<string>, k: string)
    requires k in ks
    ensures Versions(st, ks) == Versions(st, ks - {k}) + VersionOf(st, k)
    decreases ks
  {
    var x := Pick(ks);
    if x != k {
      VersionsSplit(st, ks - {x}, k);
      VersionsSplit(st, ks - {k}, x);
      assert ks - {x} - {k} == ks - {k} - {x};
    }
  }

  lemma {:induction false} VersionsSame(st: Store, st': Store, ks: set<string>)
    requires forall k :: k in ks ==> VersionOf(st', k) == VersionOf(st, k)
    ensures Versions(st', ks) == Versions(st, ks)
    decreases ks
  {
    if ks != {} {
      var k := Pick(ks);
      VersionsSame(st, st', ks - {k});
    }
  }

  /** A handler run adds one to the sum exactly when it applies a Put. */
  lemma VersionsStep(st: Store, ks: set<string>, req: Request)
    requires PositiveVersions(st) && req.key in ks
    ensures var (st', r) := Handle(st, req);
            Versions(st', ks) == Versions(st, ks) + if req.Put? && r.err == OK then 1 else 0
  {
    var st' := Handle(st, req).0;
    HandleEffect(st, req);
    VersionsSplit(st, ks, req.key);
    VersionsSplit(st', ks, req.key);
    VersionsSame(st, st', ks - {req.key});
  }

  /** Once the client's Put at `ver` was applied, the value at the next version is its own. */
  predicate Mine(st: Store, key: string, me: nat, ver: nat) {
    VersionOf(st, key) > ver && (VersionOf(st, key) == ver + 1 ==> st[key].val == Stamp(me, ver))
  }

  ghost predicate ClientOk(st: Store, me: nat, cl: Client, reliable: bool) {
    && (cl.clerk.Some? ==> ClerkOk(st, cl.clerk.value) && (reliable ==> cl.clerk.value.first))
    && (forall k :: k in cl.vers ==> cl.vers[k] <= VersionOf(st, k))
    && (reliable ==> cl.nmaybe == 0)
    && match cl.pc
       case Putting =>
         && cl.key in cl.vers && cl.ver <= VersionOf(st, cl.key)
         && cl.nok <= cl.puts <= cl.nok + cl.nmaybe
         && cl.clerk.Some? && cl.clerk.value.req == Put(cl.key, Stamp(me, cl.ver), cl.ver)
         && (cl.clerk.value.applied == 1 ==> Mine(st, cl.key, me, cl.ver))
         && (cl.clerk.value.phase.Executed? ==> cl.key in st && cl.clerk.value.phase.reply.err != ErrNoKey)
       case AfterPut(err) =>
         && cl.key in cl.vers
         && cl.nok + (if err == OK then 1 else 0) <= cl.puts
         && cl.puts <= cl.nok + cl.nmaybe + (if err == OK || err == ErrMaybe then 1 else 0)
         && cl.clerk.Some? && cl.clerk.value.req == Get(cl.key) && cl.clerk.value.applied == 0
         && err != ErrNoKey && cl.key in st && (err == OK ==> Mine(st, cl.key, me, cl.ver)) && (reliable ==> err != ErrMaybe)
         && (cl.clerk.value.phase.Executed? ==>
               var r := cl.clerk.value.phase.reply;
               && r.err == OK && r.val.Stamp? && r.ver <= VersionOf(st, cl.key)
               && (err == OK && r.ver == cl.ver + 1 ==> r.val == Stamp(me, cl.ver)))
       case Failed => false
       case _ => cl.clerk.None? && cl.nok <= cl.puts <= cl.nok + cl.nmaybe
  }

  ghost predicate StoreOk(st: Store) {
    PositiveVersions(st) && forall k :: k in st ==> st[k].val.Stamp?
  }

  ghost predicate Inv(s: State, ks: set<string>, reliable: bool) {
    && StoreOk(s.store)
    && Versions(s.store, ks) == Sum(AllMade(s.clients))
    && forall c :: 0 <= c < |s.clients| ==> ClientOk(s.store, c, s.clients[c], reliable) && s.clients[c].vers.Keys == ks
  }

  lemma MadeUpdate(cs: seq<Client>, c: nat, cl: Client)
    requires c < |cs|
    ensures Sum(AllMade(cs[c := cl])) + Made(cs[c]) == Sum(AllMade(cs)) + Made(cl)
  {
    SumUpdate(AllMade(cs), c, Made(cl));
    assert AllMade(cs[c := cl]) == AllMade(cs)[c := Made(cl)];
  }

  lemma OthersUnharmed(st: Store, d: nat, cl: Client, reliable: bool, req: Request)
    requires PositiveVersions(st) && ClientOk(st, d, cl, reliable)
    ensures ClientOk(Handle(st, req).0, d, cl, reliable)
  {
    var st' := Handle(st, req).0;
    HandleEffect(st, req);
    assert forall k :: VersionOf(st, k) <= VersionOf(st', k);
    if cl.clerk.Some? { OthersKeepClerkOk(st, cl.clerk.value, req); }
  }

  /** A client's own handler run. */
  lemma OwnExecution(st: Store, me: nat, cl: Client, reliable: bool)
    requires StoreOk(st) && ClientOk(st, me, cl, reliable) && cl.clerk.Some? && cl.clerk.value.phase.InFlight?
    ensures var (st', ck) := Exec(st, cl.clerk.value);
            StoreOk(st') && ClientOk(st', me, cl.(clerk := Some(ck)), reliable)
  {
    HandleEffect(st, cl.clerk.value.req);
    OwnStepsKeepClerkOk(st, cl.clerk.value);
  }

  lemma ExecutesCounts(s: State, ks: set<string>, c: nat)
    requires PositiveVersions(s.store) && Versions(s.store, ks) == Sum(AllMade(s.clients)) && Enabled(s, Executes(c))
    requires s.clients[c].clerk.value.req.key in ks
    ensures var t := Do(s, Executes(c)); Versions(t.store, ks) == Sum(AllMade(t.clients))
  {
    var cl := s.clients[c];
    VersionsStep(s.store, ks, cl.clerk.value.req);
    MadeUpdate(s.clients, c, cl.(clerk := Some(Exec(s.store, cl.clerk.value).1)));
  }

  lemma ExecutesKeepsInv(s: State, ks: set<string>, c: nat, reliable: bool)
    requires Inv(s, ks, reliable) && Enabled(s, Executes(c))
    ensures Inv(Do(s, Executes(c)), ks, reliable)
  {
    var t, cl := Do(s, Executes(c)), s.clients[c];
    assert ClientOk(s.store, c, cl, reliable);
    OwnExecution(s.store, c, cl, reliable);
    ExecutesCounts(s, ks, c);
    forall d | 0 <= d < |t.clients| && d != c ensures ClientOk(t.store, d, t.clients[d], reliable) {
      OthersUnharmed(s.store, d, s.clients[d], reliable, cl.clerk.value.req);
    }
  }

  lemma ResumeOk(st: Store, me: nat, cl: Client, reliable: bool)
    requires PositiveVersions(st) && ClientOk(st, me, cl, reliable) && cl.clerk.Some? && cl.clerk.value.phase.Executed?
    ensures var cl' := Resume(me, cl, Result(cl.clerk.value), cl.clerk.value.applied);
            ClientOk(st, me, cl', reliable) && Made(cl') == Made(cl) && cl'.vers.Keys == cl.vers.Keys
  {
    if cl.pc.Putting? { ResultMeaning(st, cl.clerk.value); }
  }

  lemma LocalOk(st: Store, cl: Client, a: Action, reliable: bool)
    requires PositiveVersions(st) && ClientOk(st, a.c, cl, reliable) && !a.Executes? && (reliable ==> !a.Resent?)
    requires (a.OnePut? ==> cl.pc.Ready? && a.key in cl.vers) && (a.Stop? ==> cl.pc.Ready?)
    requires (a.Resent? ==> cl.clerk.Some?) && (a.Returns? ==> cl.clerk.Some? && cl.clerk.value.phase.Executed?)
    ensures var cl' := Local(cl, a);
            ClientOk(st, a.c, cl', reliable) && Made(cl') == Made(cl) && cl'.vers.Keys == cl.vers.Keys
  {
    if a.Returns? { ResumeOk(st, a.c, cl, reliable); }
  }

  lemma LocalKeepsInv(s: State, ks: set<string>, a: Action, reliable: bool)
    requires Inv(s, ks, reliable) && Enabled(s, a) && !a.Executes? && (reliable ==> !a.Resent?)
    ensures Inv(Do(s, a), ks, reliable)
  {
    var cl := s.clients[a.c];
    LocalOk(s.store, cl, a, reliable);
    Replaced(s, ks, a.c, Local(cl, a), reliable);
  }

  lemma Replaced(s: State, ks: set<string>, c: nat, cl: Client, reliable: bool)
    requires Inv(s, ks, reliable) && c < |s.clients|
    requires ClientOk(s.store, c, cl, reliable) && Made(cl) == Made(s.clients[c]) && cl.vers.Keys == ks
    ensures Inv(s.(clients := s.clients[c := cl]), ks, reliable)
  {
    MadeUpdate(s.clients, c, cl);
  }

  lemma {:induction false} NoVersions(ks: set<string>)
    ensures Versions(map[], ks) == 0
    decreases ks
  {
    if ks != {} { NoVersions(ks - {Pick(ks)}); }
  }

  /** The keys of a list. */
  function KeySet(keys: seq<string>): set<string> {
    set k | k in keys
  }

  lemma {:induction false} InvHolds(keys: seq<string>, n: nat, acts: seq<Action>, reliable: bool)
    requires reliable ==> Reliable(acts)
    ensures |Run(keys, n, acts).clients| == n && Inv(Run(keys, n, acts), KeySet(keys), reliable)
  {
    if acts == [] {
      SumZero(n);
      NoVersions(KeySet(keys));
      assert AllMade(Begin(keys, n).clients) == seq(n, _ => 0);
    } else {
      InvHolds(keys, n, acts[..|acts| - 1], reliable);
      var s, a := Run(keys, n, acts[..|acts| - 1]), acts[|acts| - 1];
      if Enabled(s, a) {
        if a.Executes? {
          ExecutesKeepsInv(s, KeySet(keys), a.c, reliable);
        } else {
          LocalKeepsInv(s, KeySet(keys), a, reliable);
        }
      }
    }
  }

  function PutResults(s: State): seq<ClntRes> {
    seq(|s.clients|, c requires 0 <= c < |s.clients| => ClntRes(s.clients[c].nok, s.clients[c].nmaybe))
  }

  ghost predicate AllStopped(s: State) {
    forall c :: 0 <= c < |s.clients| ==> s.clients[c].pc == Stopped
  }

  /** In every run no client fails, and once all have stopped the versions of the keys add up to
      at least the OKs and at most the OKs plus maybes; if no message was lost, to the OKs. */
  lemma PutAccounting(keys: seq<string>, n: nat, acts: seq<Action>)
    ensures var s := Run(keys, n, acts);
            && |s.clients| == n
            && (forall c :: 0 <= c < n ==> s.clients[c].pc != Failed)
            && (AllStopped(s) ==>
                  && Sum(Oks(PutResults(s))) <= Versions(s.store, KeySet(keys)) <= Sum(OksAndMaybes(PutResults(s)))
                  && (Reliable(acts) ==> Versions(s.store, KeySet(keys)) == Sum(Oks(PutResults(s)))))
  {
    var reliable := Reliable(acts);
    InvHolds(keys, n, acts, reliable);
    var s := Run(keys, n, acts);
    forall c | 0 <= c < n ensures s.clients[c].pc != Failed {
      assert ClientOk(s.store, c, s.clients[c], reliable);
    }
    if AllStopped(s) {
      var oks, both := Oks(PutResults(s)), OksAndMaybes(PutResults(s));
      forall c | 0 <= c < n ensures oks[c] <= AllMade(s.clients)[c] <= both[c] && (reliable ==> both[c] <= oks[c]) {
        assert ClientOk(s.store, c, s.clients[c], reliable);
      }
      SumMonotone(oks, AllMade(s.clients));
      SumMonotone(AllMade(s.clients), both);
      if reliable { SumMonotone(both, oks); }
    }
  }

  /** With one key the test's check passes. */
  lemma {:induction false} CheckPasses(key: string, n: nat, acts: seq<Action>, reliable: bool)
    requires AllStopped(Run([key], n, acts)) && (reliable ==> Reliable(acts))
    ensures var s := Run([key], n, acts); PutsAccepted(VersionOf(s.store, key), PutResults(s), reliable)
  {
    PutAccounting([key], n, acts);
    var s := Run([key], n, acts);
    assert KeySet([key]) == {key};
    VersionsSplit(s.store, {key}, key);
    assert {key} - {key} == {};
  }

  /** A client whose Put returned OK and whose Get shows the next version reads its own value. */
  lemma OkReadsOwnValue(keys: seq<string>, n: nat, acts: seq<Action>, c: nat)
    requires c < |Run(keys, n, acts).clients|
    requires var cl := Run(keys, n, acts).clients[c];
             cl.pc == AfterPut(OK) && cl.clerk.Some? && cl.clerk.value.phase.Executed?
             && Result(cl.clerk.value).ver == cl.ver + 1
    ensures var cl := Run(keys, n, acts).clients[c]; Result(cl.clerk.value).val == Stamp(c, cl.ver)
  {
    InvHolds(keys, n, acts, false);
    assert ClientOk(Run(keys, n, acts).store, c, Run(keys, n, acts).clients[c], false);
  }

  // ---------------------------------------------------------------- what a OnePut does

  /** A Put and the Get after it, undisturbed. */
  function PutAndGet(s: State, c: nat): State {
    Do(Do(Do(Do(s, Executes(c)), Returns(c)), Executes(c)), Returns(c))
  }

  lemma PutPart(s: State, c: nat)
    requires c < |s.clients| && s.clients[c].pc.Putting? && PositiveVersions(s.store)
    requires var cl := s.clients[c];
             cl.clerk == Some(Start(Put(cl.key, Stamp(c, cl.ver), cl.ver))) && cl.ver <= VersionOf(s.store, cl.key)
    ensures var t, cl := Do(Do(s, Executes(c)), Returns(c)), s.clients[c];
            var ok := cl.ver == VersionOf(s.store, cl.key);
            && t.store == (if ok then s.store[cl.key := Versioned(Stamp(c, cl.ver), cl.ver + 1)] else s.store)
            && t.clients == s.clients[c := cl.(puts := cl.puts + (if ok then 1 else 0),
                                               pc := AfterPut(if ok then OK else ErrVersion), clerk := Some(Start(Get(cl.key))))]
  {
    var cl := s.clients[c];
    HandleEffect(s.store, cl.clerk.value.req);
    var s1 := Do(s, Executes(c));
    assert s1.clients[c].clerk.value.phase == Executed(PutReply(if cl.ver == VersionOf(s.store, cl.key) then OK else ErrVersion));
  }

  lemma GetPart(s: State, c: nat)
    requires c < |s.clients| && s.clients[c].pc.AfterPut? && StoreOk(s.store)
    requires var cl := s.clients[c];
             && cl.clerk == Some(Start(Get(cl.key))) && cl.key in s.store
             && (cl.pc.err == OK ==> s.store[cl.key] == Versioned(Stamp(c, cl.ver), cl.ver + 1))
             && (cl.pc.err == OK || cl.pc.err == ErrVersion)
    ensures var t, cl, now := Do(Do(s, Executes(c)), Returns(c)), s.clients[c], s.store[s.clients[c].key].ver;
            && t.store == s.store
            && t.clients == s.clients[c :=
                 if cl.pc.err == OK
                 then cl.(vers := cl.vers[cl.key := now], ver := now, nok := cl.nok + 1, pc := Ready, clerk := None)
                 else StartPut(c, cl.(ver := now))]
  {
    var cl := s.clients[c];
    var s1 := Do(s, Executes(c));
    assert s1.clients[c].clerk.value.phase == Executed(Reply(s.store[cl.key].val, s.store[cl.key].ver, OK));
  }

  /** A Put and Get at the key's version stores the client's value and ends the OnePut with one OK;
      at an older version it stores nothing and tries again at the version the Get shows. */
  lemma PutAndGetEffect(s: State, c: nat)
    requires c < |s.clients| && s.clients[c].pc.Putting? && StoreOk(s.store)
    requires var cl := s.clients[c];
             cl.clerk == Some(Start(Put(cl.key, Stamp(c, cl.ver), cl.ver))) && cl.ver <= VersionOf(s.store, cl.key)
    ensures var t, cl, now := PutAndGet(s, c), s.clients[c], VersionOf(s.store, s.clients[c].key);
            && |t.clients| == |s.clients|
            && (cl.ver == now ==>
                  && t.store == s.store[cl.key := Versioned(Stamp(c, now), now + 1)]
                  && t.clients[c].pc.Ready? && t.clients[c].nok == cl.nok + 1 && t.clients[c].nmaybe == cl.nmaybe
                  && t.clients[c].vers == cl.vers[cl.key := now + 1])
            && (cl.ver < now ==> t == s.(clients := s.clients[c := StartPut(c, cl.(ver := now))]))
  {
    var cl := s.clients[c];
    HandleEffect(s.store, cl.clerk.value.req);
    PutPart(s, c);
    GetPart(Do(Do(s, Executes(c)), Returns(c)), c);
  }

  /** The state after an undisturbed OnePut: at once, or after one version error. */
  function OnePutAlone(s: State, c: nat, k: string): State
    requires Enabled(s, OnePut(c, k))
  {
    var once := PutAndGet(Do(s, OnePut(c, k)), c);
    if s.clients[c].vers[k] == VersionOf(s.store, k) then once else PutAndGet(once, c)
  }

  /** The client's value is stored at the key's next version, with one OK, and the client knows it. */
  ghost predicate Stored(s: State, t: State, c: nat, k: string) {
    var now := VersionOf(s.store, k);
    && |t.clients| == |s.clients| && c < |s.clients| && t.store == s.store[k := Versioned(Stamp(c, now), now + 1)]
    && t.clients[c].pc.Ready? && t.clients[c].nok == s.clients[c].nok + 1 && t.clients[c].nmaybe == s.clients[c].nmaybe
    && t.clients[c].vers == s.clients[c].vers[k := now + 1]
  }

  lemma StaleOnePut(s: State, c: nat, k: string)
    requires Enabled(s, OnePut(c, k)) && StoreOk(s.store) && s.clients[c].vers[k] < VersionOf(s.store, k)
    ensures var now := VersionOf(s.store, k);
            PutAndGet(Do(s, OnePut(c, k)), c)
              == s.(clients := s.clients[c := StartPut(c, s.clients[c].(key := k, ver := now))])
  {
    var s1 := Do(s, OnePut(c, k));
    PutAndGetEffect(s1, c);
    assert s1.clients[c := StartPut(c, s1.clients[c].(ver := VersionOf(s.store, k)))]
        == s.clients[c := StartPut(c, s.clients[c].(key := k, ver := VersionOf(s.store, k)))];
  }

  lemma OnePutEffect(s: State, c: nat, k: string)
    requires Enabled(s, OnePut(c, k)) && StoreOk(s.store) && s.clients[c].vers[k] <= VersionOf(s.store, k)
    ensures Stored(s, OnePutAlone(s, c, k), c, k)
  {
    if s.clients[c].vers[k] < VersionOf(s.store, k) {
      StaleOnePut(s, c, k);
      PutAndGetEffect(PutAndGet(Do(s, OnePut(c, k)), c), c);
    } else {
      PutAndGetEffect(Do(s, OnePut(c, k)), c);
    }
  }

  lemma {:induction false} BelievesNoMore(keys: seq<string>, n: nat, acts: seq<Action>, c: nat, k: string)
    requires c < |Run(keys, n, acts).clients| && k in Run(keys, n, acts).clients[c].vers
    ensures var s := Run(keys, n, acts); StoreOk(s.store) && s.clients[c].vers[k] <= VersionOf(s.store, k)
  {
    InvHolds(keys, n, acts, false);
    assert ClientOk(Run(keys, n, acts).store, c, Run(keys, n, acts).clients[c], false);
  }

  /** After any run, a OnePut that nobody disturbs, whatever version the client believes in, stores its
      value at the key's next version, counts one OK and knows that version. */
  lemma {:induction false} OnePutStores(keys: seq<string>, n: nat, acts: seq<Action>, c: nat, k: string)
    requires Enabled(Run(keys, n, acts), OnePut(c, k))
    ensures Stored(Run(keys, n, acts), OnePutAlone(Run(keys, n, acts), c, k), c, k)
  {
    BelievesNoMore(keys, n, acts, c, k);
    OnePutEffect(Run(keys, n, acts), c, k);
  }

  /** When the Get after a Put returns, the client's counts say which answer the Put got; after a
      version error the OnePut goes on, and either way the client believes what the Get showed. */
  lemma CountsTellAnswers(keys: seq<string>, n: nat, acts: seq<Action>, c: nat)
    requires Enabled(Run(keys, n, acts), Returns(c)) && Run(keys, n, acts).clients[c].pc.AfterPut?
    ensures var cl, cl' := Run(keys, n, acts).clients[c], Do(Run(keys, n, acts), Returns(c)).clients[c];
            && cl'.nok == cl.nok + (if cl.pc.err == OK then 1 else 0)
            && cl'.nmaybe == cl.nmaybe + (if cl.pc.err == ErrMaybe then 1 else 0)
            && cl'.ver == Result(cl.clerk.value).ver
            && (cl.pc.err == ErrVersion ==> cl'.pc == Putting && cl'.key == cl.key)
            && (cl.pc.err != ErrVersion ==> cl'.pc == Ready && cl'.vers == cl.vers[cl.key := cl'.ver])
  {
    InvHolds(keys, n, acts, false);
    assert ClientOk(Run(keys, n, acts).store, c, Run(keys, n, acts).clients[c], false);
  }
}
