/** Concurrent append clients on one key, and the check of what they leave on the server. */
module AppendClients {
  import opened KvServer
  import opened C = Clerk
  import opened TestCounts

  const KEY := "k"

  // ---------------------------------------------------------------- what the checker computes

  /** The number expected next from client `c` after the entries `es`. */
  function Expect(es: seq<Entry>, c: nat): nat {
    if es == [] then 0
    else if es[|es| - 1].id == c then es[|es| - 1].n + 1
    else Expect(es[..|es| - 1], c)
  }

  /** How many numbers of client `c` are missing below its latest entry. */
  function Skipped(es: seq<Entry>, c: nat): int {
    if es == [] then 0
    else Skipped(es[..|es| - 1], c)
         + (if es[|es| - 1].id == c then es[|es| - 1].n - Expect(es[..|es| - 1], c) else 0)
  }

  function Count(es: seq<Entry>, c: nat): nat {
    if es == [] then 0 else Count(es[..|es| - 1], c) + (if es[|es| - 1].id == c then 1 else 0)
  }

  /** Each client's entries strictly increase. */
  ghost predicate Increasing(es: seq<Entry>) {
    forall i, j :: 0 <= i < j < |es| && es[i].id == es[j].id ==> es[i].n < es[j].n
  }

  /** `n` is the number of clients the checker is told of; each client that it meets, told of or
      found in an entry, must have reported. */
  ghost predicate Accepted(es: seq<Entry>, n: nat, rs: seq<ClntRes>, ver: nat) {
    && n <= |rs|
    && (forall i :: 0 <= i < |es| ==> es[i].id < |rs|)
    && Increasing(es)
    && |es| + 1 == ver
    && (forall c :: 0 <= c < |rs| ==>
          Skipped(es, c) <= rs[c].nmaybe && Expect(es, c) <= rs[c].nok + rs[c].nmaybe)
  }

  /** `Expect` is one more than the client's latest entry. */
  lemma {:induction false} ExpectBounds(es: seq<Entry>, c: nat)
    requires Increasing(es)
    ensures forall i :: 0 <= i < |es| && es[i].id == c ==> es[i].n < Expect(es, c)
    ensures Expect(es, c) > 0 ==> exists i :: 0 <= i < |es| && es[i].id == c && es[i].n + 1 == Expect(es, c)
  {
    if es != [] {
      var init := es[..|es| - 1];
      ExpectBounds(init, c);
      if es[|es| - 1].id != c && Expect(es, c) > 0 {
        var i :| 0 <= i < |init| && init[i].id == c && init[i].n + 1 == Expect(init, c);
        assert es[i].id == c && es[i].n + 1 == Expect(es, c);
      }
      forall i | 0 <= i < |es| && es[i].id == c ensures es[i].n < Expect(es, c) {
        if i < |init| { assert init[i].id == c; }
      }
    }
  }

  /** Skipped, present and expected numbers add up. */
  lemma {:induction false} SkippedAdds(es: seq<Entry>, c: nat)
    ensures Skipped(es, c) + Count(es, c) == Expect(es, c)
  {
    if es != [] { SkippedAdds(es[..|es| - 1], c); }
  }

  predicate Mentions(es: seq<Entry>, c: nat) {
    exists i :: 0 <= i < |es| && es[i].id == c
  }

  /** The checker's two maps after the entries `es`, for clients below `n`. */
  ghost predicate Tallied(wanted: map<nat, nat>, skipped: map<nat, int>, es: seq<Entry>, n: nat) {
    && wanted.Keys == skipped.Keys
    && (forall c: nat :: c in wanted <==> c < n || Mentions(es, c))
    && (forall c :: c in wanted ==> wanted[c] == Expect(es, c) && skipped[c] == Skipped(es, c))
  }

  /** The number the checker expects of the next entry's client decides whether it still increases. */
  lemma EntryIncreases(es: seq<Entry>, e: Entry)
    requires Increasing(es)
    ensures Increasing(es + [e]) <==> Expect(es, e.id) <= e.n
  {
    var es' := es + [e];
    ExpectBounds(es, e.id);
    if Expect(es, e.id) > e.n {
      var k :| 0 <= k < |es| && es[k].id == e.id && es[k].n + 1 == Expect(es, e.id);
      assert es'[k].id == es'[|es|].id && es'[k].n >= es'[|es|].n;
    }
  }

  /** One more entry. */
  lemma TallyEntry(wanted: map<nat, nat>, skipped: map<nat, int>, es: seq<Entry>, n: nat, e: Entry)
    requires Tallied(wanted, skipped, es, n)
    ensures var w, s := if e.id in wanted then wanted[e.id] else 0, if e.id in wanted then skipped[e.id] else 0;
            && w == Expect(es, e.id)
            && Tallied(wanted[e.id := e.n + 1], skipped[e.id := s + (e.n - w)], es + [e], n)
  {
    var es' := es + [e];
    assert es'[..|es|] == es && es'[|es|] == e;
    if e.id !in wanted { UnknownClient(es, e.id); }
    forall c ensures Mentions(es', c) <==> c == e.id || Mentions(es, c) { MentionsMore(es, e, c); }
  }

  lemma MentionsMore(es: seq<Entry>, e: Entry, c: nat)
    ensures Mentions(es + [e], c) <==> c == e.id || Mentions(es, c)
  {
    var es' := es + [e];
    assert es'[|es|].id == e.id;
    if i :| 0 <= i < |es| && es[i].id == c { assert es'[i].id == c; }
    if i :| 0 <= i < |es'| && es'[i].id == c { assert i < |es| ==> es[i].id == c; }
  }

  lemma RefusedPrefix(es: seq<Entry>, i: nat)
    requires i <= |es| && !Increasing(es[..i])
    ensures !Increasing(es)
  {
    var j, k :| 0 <= j < k < i && es[..i][j].id == es[..i][k].id && es[..i][j].n >= es[..i][k].n;
    assert es[j].id == es[k].id;
  }

  /** The body of the checker's walk, for one entry after the entries `es`. */
  method TallyOne(wanted0: map<nat, nat>, skipped0: map<nat, int>, e: Entry, ghost es: seq<Entry>, ghost n: nat)
      returns (ok: bool, wanted: map<nat, nat>, skipped: map<nat, int>)
    requires Tallied(wanted0, skipped0, es, n)
    ensures ok <==> Expect(es, e.id) <= e.n
    ensures ok ==> Tallied(wanted, skipped, es + [e], n)
  {
    TallyEntry(wanted0, skipped0, es, n, e);
    wanted, skipped := wanted0, skipped0;
    if e.id !in wanted {
      wanted, skipped := wanted[e.id := 0], skipped[e.id := 0];
    }
    if wanted[e.id] > e.n {
      return false, wanted, skipped;
    } else if wanted[e.id] == e.n {
      wanted := wanted[e.id := wanted[e.id] + 1];
    } else {
      var s := e.n - wanted[e.id];
      wanted := wanted[e.id := e.n + 1];
      skipped := skipped[e.id := skipped[e.id] + s];
    }
    ok := true;
    ghost var s0 := if e.id in wanted0 then skipped0[e.id] else 0;
    ghost var w0 := if e.id in wanted0 then wanted0[e.id] else 0;
    assert wanted == wanted0[e.id := e.n + 1];
    assert skipped == skipped0[e.id := s0 + (e.n - w0)];
  }

  /** The checker's walk over the entries; refuses at the first old number. */
  method Tally(es: seq<Entry>, n: nat) returns (ok: bool, wanted: map<nat, nat>, skipped: map<nat, int>)
    ensures ok <==> Increasing(es)
    ensures ok ==> Tallied(wanted, skipped, es, n)
  {
    wanted, skipped := map[], map[];
    for i := 0 to n
      invariant Tallied(wanted, skipped, [], i)
    {
      wanted, skipped := wanted[i := 0], skipped[i := 0];
    }
    for i := 0 to |es|
      invariant Tallied(wanted, skipped, es[..i], n) && Increasing(es[..i])
    {
      assert es[..i + 1] == es[..i] + [es[i]];
      EntryIncreases(es[..i], es[i]);
      ok, wanted, skipped := TallyOne(wanted, skipped, es[i], es[..i], n);
      if !ok {
        RefusedPrefix(es, i + 1);
        return;
      }
    }
    assert es[..|es|] == es;
    ok := true;
  }

  /** The test's checker; false stands for a failed test (or an index panic on an unknown client). */
  method CheckAppends(es: seq<Entry>, n: nat, rs: seq<ClntRes>, ver: nat) returns (ok: bool)
    ensures ok <==> Accepted(es, n, rs, ver)
  {
    var wanted, skipped;
    ok, wanted, skipped := Tally(es, n);
    if !ok || |es| + 1 != ver {
      return false;
    }
    var todo := wanted.Keys;
    while todo != {}
      invariant todo <= wanted.Keys
      invariant forall c :: c in wanted.Keys - todo ==>
                  c < |rs| && skipped[c] <= rs[c].nmaybe && wanted[c] <= rs[c].nok + rs[c].nmaybe
    {
      var c :| c in todo;
      if c >= |rs| || skipped[c] > rs[c].nmaybe || wanted[c] > rs[c].nok + rs[c].nmaybe {
        return false;
      }
      todo := todo - {c};
    }
    assert forall i :: 0 <= i < |es| ==> Mentions(es, es[i].id);
    assert n > 0 ==> n - 1 in wanted;
    forall c: nat | c < |rs| && c !in wanted ensures Expect(es, c) == 0 && Skipped(es, c) == 0 { UnknownClient(es, c); }
    return true;
  }

  lemma {:induction false} UnknownClient(es: seq<Entry>, c: nat)
    requires !Mentions(es, c)
    ensures Expect(es, c) == 0 && Skipped(es, c) == 0
  {
    if es != [] {
      MentionsMore(es[..|es| - 1], es[|es| - 1], c);
      assert es[..|es| - 1] + [es[|es| - 1]] == es;
      UnknownClient(es[..|es| - 1], c);
    }
  }

  // ---------------------------------------------------------------- the clients

  datatype Pc = Ready | Reading | Writing(ver: nat, es: seq<Entry>) | Stopped | Failed

  /** An append client in its iteration `i`. */
  datatype Client = Client(i: nat, nok: nat, nmaybe: nat, pc: Pc, clerk: Option<Clerk>)

  datatype State = State(store: Store, clients: seq<Client>)

  datatype Action = Iterate(c: nat) | Stop(c: nat) | Resent(c: nat) | Executes(c: nat) | Returns(c: nat)

  function Read(cl: Client): Client {
    cl.(pc := Reading, clerk := Some(Start(Get(KEY))))
  }

  /** The code that runs when the clerk returns `out` to client `me`. */
  function Resume(me: nat, cl: Client, out: Reply): Client {
    match cl.pc
    case Reading =>
      if out.err != OK || !out.val.Entries? then cl.(pc := Failed, clerk := None)
      else
        var es := out.val.es + [Entry(me, cl.i)];
        cl.(pc := Writing(out.ver, es), clerk := Some(Start(Put(KEY, Entries(es), out.ver))))
    case Writing(_, _) =>
      if out.err == OK then cl.(i := cl.i + 1, nok := cl.nok + 1, pc := Ready, clerk := None)
      else if out.err == ErrMaybe then cl.(i := cl.i + 1, nmaybe := cl.nmaybe + 1, pc := Ready, clerk := None)
      else Read(cl)
    case _ => cl
  }

  /** The key starts at version 1 with an empty list. */
  function Begin(n: nat): State {
    State(map[KEY := Versioned(Entries([]), 1)], seq(n, _ => Client(0, 0, 0, Ready, None)))
  }

  predicate Enabled(s: State, a: Action) {
    a.c < |s.clients| &&
    var cl := s.clients[a.c];
    match a
    case Iterate(_) => cl.pc.Ready?
    case Stop(_) => cl.pc.Ready?
    case Resent(_) => cl.clerk.Some?
    case Executes(_) => cl.clerk.Some? && cl.clerk.value.phase.InFlight?
    case Returns(_) => cl.clerk.Some? && cl.clerk.value.phase.Executed?
  }

  function Do(s: State, a: Action): State {
    if !Enabled(s, a) then s else
    var cl := s.clients[a.c];
    match a
    case Iterate(c) => s.(clients := s.clients[c := Read(cl)])
    case Stop(c) => s.(clients := s.clients[c := cl.(pc := Stopped)])
    case Resent(c) => s.(clients := s.clients[c := cl.(clerk := Some(Resend(cl.clerk.value)))])
    case Executes(c) =>
      var (st, ck) := Exec(s.store, cl.clerk.value);
      State(st, s.clients[c := cl.(clerk := Some(ck))])
    case Returns(c) => s.(clients := s.clients[c := Resume(c, cl, Result(cl.clerk.value))])
  }

  function Run(n: nat, acts: seq<Action>): State {
    if acts == [] then Begin(n) else Do(Run(n, acts[..|acts| - 1]), acts[|acts| - 1])
  }

  /** The stored list, and nothing but a list with its length as version. */
  ghost predicate ListOk(st: Store, n: nat) {
    && PositiveVersions(st)
    && KEY in st && st[KEY].val.Entries?
    && st[KEY].ver == |st[KEY].val.es| + 1
    && Increasing(st[KEY].val.es)
    && forall i :: 0 <= i < |st[KEY].val.es| ==> st[KEY].val.es[i].id < n
  }

  /** What a client knows of the stored list at version `ver`: it may have grown since. */
  predicate Known(st: Store, ver: nat, es: seq<Entry>)
    requires KEY in st && st[KEY].val.Entries?
  {
    ver <= st[KEY].ver && (ver == st[KEY].ver ==> es == st[KEY].val.es)
  }

  ghost predicate ClientOk(st: Store, me: nat, cl: Client)
    requires KEY in st && st[KEY].val.Entries?
  {
    var es := st[KEY].val.es;
    && cl.nok + cl.nmaybe == cl.i
    && (cl.clerk.Some? ==> ClerkOk(st, cl.clerk.value))
    && match cl.pc
       case Writing(ver, mine) =>
         && cl.clerk.Some? && cl.clerk.value.req == Put(KEY, Entries(mine), ver)
         && |mine| > 0 && mine[|mine| - 1] == Entry(me, cl.i) && |mine| == ver
         && (cl.clerk.value.applied == 0 ==> Known(st, ver, mine[..|mine| - 1]))
         && Expect(es, me) <= cl.i + cl.clerk.value.applied
         && Count(es, me) >= cl.nok + cl.clerk.value.applied
         && (cl.clerk.value.phase.Executed? ==> cl.clerk.value.phase.reply.err != ErrNoKey)
       case Reading =>
         && cl.clerk.Some? && cl.clerk.value.req == Get(KEY) && Expect(es, me) <= cl.i && Count(es, me) >= cl.nok
         && (cl.clerk.value.phase.Executed? ==>
               var r := cl.clerk.value.phase.reply;
               r.err == OK && r.val.Entries? && r.ver == |r.val.es| + 1 && Known(st, r.ver, r.val.es))
       case Failed => false
       case _ => cl.clerk.None? && Expect(es, me) <= cl.i && Count(es, me) >= cl.nok
  }

  ghost predicate Inv(s: State, n: nat) {
    && ListOk(s.store, n) && |s.clients| == n
    && forall c :: 0 <= c < n ==> ClientOk(s.store, c, s.clients[c])
  }

  /** An append to the list keeps every other client's numbers, and its own grow by one. */
  lemma Grows(es: seq<Entry>, e: Entry, c: nat)
    ensures Expect(es + [e], c) == if e.id == c then e.n + 1 else Expect(es, c)
    ensures Count(es + [e], c) == Count(es, c) + if e.id == c then 1 else 0
  {
    assert (es + [e])[..|es|] == es;
  }

  /** What an execution of client `c`'s request does to the stored list. */
  lemma ListStep(st: Store, n: nat, c: nat, cl: Client)
    requires ListOk(st, n) && c < n && ClientOk(st, c, cl) && cl.clerk.Some? && cl.clerk.value.phase.InFlight?
    ensures var (st', ck) := Exec(st, cl.clerk.value);
            && ListOk(st', n)
            && (ck.applied == cl.clerk.value.applied ==> st' == st)
            && (ck.applied != cl.clerk.value.applied ==>
                  && cl.pc.Writing? && cl.clerk.value.applied == 0 && ck.applied == 1
                  && st'[KEY] == Versioned(Entries(st[KEY].val.es + [Entry(c, cl.i)]), st[KEY].ver + 1))
  {
    HandleEffect(st, cl.clerk.value.req);
    if Exec(st, cl.clerk.value).1.applied != cl.clerk.value.applied {
      var es, mine := st[KEY].val.es, cl.pc.es;
      assert mine == mine[..|mine| - 1] + [mine[|mine| - 1]];
      ExpectBounds(es, c);
    }
  }

  lemma ExecutesKeepsInv(s: State, n: nat, c: nat)
    requires Inv(s, n) && Enabled(s, Executes(c))
    ensures Inv(Do(s, Executes(c)), n)
  {
    var t, cl := Do(s, Executes(c)), s.clients[c];
    ListStep(s.store, n, c, cl);
    OwnStepsKeepClerkOk(s.store, cl.clerk.value);
    Grows(s.store[KEY].val.es, Entry(c, cl.i), c);
    HandleEffect(s.store, cl.clerk.value.req);
    forall d | 0 <= d < n && d != c ensures ClientOk(t.store, d, t.clients[d]) {
      OthersUnharmed(s, n, c, d);
    }
  }

  lemma OthersUnharmed(s: State, n: nat, c: nat, d: nat)
    requires Inv(s, n) && Enabled(s, Executes(c)) && d < n && d != c
    ensures var st := Exec(s.store, s.clients[c].clerk.value).0;
            ListOk(st, n) && ClientOk(st, d, s.clients[d])
  {
    var cl := s.clients[c];
    assert ClientOk(s.store, d, s.clients[d]);
    ListStep(s.store, n, c, cl);
    if s.clients[d].clerk.Some? { OthersKeepClerkOk(s.store, s.clients[d].clerk.value, cl.clerk.value.req); }
    Grows(s.store[KEY].val.es, Entry(c, cl.i), d);
  }

  lemma {:induction false} InvHolds(n: nat, acts: seq<Action>)
    ensures Inv(Run(n, acts), n)
  {
    if acts != [] {
      InvHolds(n, acts[..|acts| - 1]);
      var s, a := Run(n, acts[..|acts| - 1]), acts[|acts| - 1];
      if Enabled(s, a) {
        if a.Executes? { ExecutesKeepsInv(s, n, a.c); } else { LocalKeepsInv(s, n, a); }
      }
    }
  }

  lemma LocalKeepsInv(s: State, n: nat, a: Action)
    requires Inv(s, n) && Enabled(s, a) && !a.Executes?
    ensures Inv(Do(s, a), n)
  {
    assert ClientOk(s.store, a.c, s.clients[a.c]);
  }

  /** The counts a client reports when it stops. */
  function AppendResults(s: State): seq<ClntRes> {
    seq(|s.clients|, c requires 0 <= c < |s.clients| => ClntRes(s.clients[c].nok, s.clients[c].nmaybe))
  }

  /** Every run that ends with all clients stopped leaves a state that the checker accepts;
      no client fails on the way. */
  lemma AppendRunsAccepted(n: nat, acts: seq<Action>)
    ensures var s := Run(n, acts);
            && |s.clients| == n && KEY in s.store && s.store[KEY].val.Entries?
            && (forall c :: 0 <= c < n ==> s.clients[c].pc != Failed)
            && ((forall c :: 0 <= c < n ==> s.clients[c].pc == Stopped) ==>
                  Accepted(s.store[KEY].val.es, n, AppendResults(s), s.store[KEY].ver))
  {
    InvHolds(n, acts);
    var s := Run(n, acts);
    forall c | 0 <= c < n ensures s.clients[c].pc != Failed {
      assert ClientOk(s.store, c, s.clients[c]);
    }
    if forall c :: 0 <= c < n ==> s.clients[c].pc == Stopped {
      forall c | 0 <= c < n ensures Skipped(s.store[KEY].val.es, c) <= s.clients[c].nmaybe {
        assert ClientOk(s.store, c, s.clients[c]);
        SkippedAdds(s.store[KEY].val.es, c);
      }
    }
  }

  // ---------------------------------------------------------------- what an iteration does

  lemma RunExtends(n: nat, acts: seq<Action>, a: Action)
    ensures Run(n, acts + [a]) == Do(Run(n, acts), a)
  {
    var more := acts + [a];
    assert more[..|more| - 1] == acts && more[|more| - 1] == a;
  }

  /** The client has read the list and is about to write it with its entry. */
  lemma ReadAtOnce(s: State, n: nat, c: nat)
    requires Inv(s, n) && c < n && s.clients[c].pc.Ready?
    ensures var t := Do(Do(Do(s, Iterate(c)), Executes(c)), Returns(c));
            var es := s.store[KEY].val.es + [Entry(c, s.clients[c].i)];
            && t.store == s.store
            && t.clients == s.clients[c := s.clients[c].(pc := Writing(s.store[KEY].ver, es),
                                                         clerk := Some(Start(Put(KEY, Entries(es), s.store[KEY].ver))))]
  {
    var s1 := Do(s, Iterate(c));
    assert s1.clients[c] == Read(s.clients[c]);
    var s2 := Do(s1, Executes(c));
    assert s2.store == s.store && s2.clients[c].clerk.value.phase == Executed(Reply(s.store[KEY].val, s.store[KEY].ver, OK));
  }

  lemma WriteAtOnce(s: State, c: nat, es: seq<Entry>)
    requires c < |s.clients| && KEY in s.store && PositiveVersions(s.store)
    requires s.clients[c].pc.Writing? && s.clients[c].clerk == Some(Start(Put(KEY, Entries(es), s.store[KEY].ver)))
    ensures var t, cl := Do(Do(s, Executes(c)), Returns(c)), s.clients[c];
            && t.store == s.store[KEY := Versioned(Entries(es), s.store[KEY].ver + 1)]
            && t.clients == s.clients[c := cl.(i := cl.i + 1, nok := cl.nok + 1, pc := Ready, clerk := None)]
  {
    var s1 := Do(s, Executes(c));
    assert s1.clients[c].clerk.value.phase == Executed(PutReply(OK));
  }

  /** The five actions of an iteration that nobody disturbs. */
  function Iteration(s: State, c: nat): State {
    Do(Do(Do(Do(Do(s, Iterate(c)), Executes(c)), Returns(c)), Executes(c)), Returns(c))
  }

  lemma {:induction false} IterationIsRun(n: nat, acts: seq<Action>, c: nat)
    ensures Run(n, acts + [Iterate(c)] + [Executes(c)] + [Returns(c)] + [Executes(c)] + [Returns(c)])
            == Iteration(Run(n, acts), c)
  {
    var a1 := acts + [Iterate(c)];
    var a2 := a1 + [Executes(c)];
    var a3 := a2 + [Returns(c)];
    RunExtends(n, acts, Iterate(c));
    RunExtends(n, a1, Executes(c));
    RunExtends(n, a2, Returns(c));
    RunExtends(n, a3, Executes(c));
    RunExtends(n, a3 + [Executes(c)], Returns(c));
  }

  /** After any run, an iteration that meets no rival and no loss appends exactly its entry, raises
      the version by one and counts one OK; nothing else changes. */
  lemma {:induction false} IterationAppends(n: nat, acts: seq<Action>, c: nat)
    requires c < |Run(n, acts).clients| && Run(n, acts).clients[c].pc.Ready?
    ensures var s, t := Run(n, acts), Iteration(Run(n, acts), c);
            var cl := s.clients[c];
            && KEY in s.store && s.store[KEY].val.Entries?
            && t.store == s.store[KEY := Versioned(Entries(s.store[KEY].val.es + [Entry(c, cl.i)]), s.store[KEY].ver + 1)]
            && t.clients == s.clients[c := cl.(i := cl.i + 1, nok := cl.nok + 1)]
  {
    var s := Run(n, acts);
    InvHolds(n, acts);
    ReadAtOnce(s, n, c);
    var s3 := Do(Do(Do(s, Iterate(c)), Executes(c)), Returns(c));
    WriteAtOnce(s3, c, s.store[KEY].val.es + [Entry(c, s.clients[c].i)]);
    assert ClientOk(s.store, c, s.clients[c]);
  }

  /** When the clerk returns to a client, its counts say which answer a Put got: one OK more, one
      maybe more, or for a version error the same iteration again from the Get. */
  lemma CountsTellAnswers(n: nat, acts: seq<Action>, c: nat)
    requires Enabled(Run(n, acts), Returns(c))
    ensures var cl, cl' := Run(n, acts).clients[c], Do(Run(n, acts), Returns(c)).clients[c];
            var err, put := Result(cl.clerk.value).err, cl.pc.Writing?;
            && cl'.nok == cl.nok + (if put && err == OK then 1 else 0)
            && cl'.nmaybe == cl.nmaybe + (if put && err == ErrMaybe then 1 else 0)
            && cl'.i == cl.i + (if put && (err == OK || err == ErrMaybe) then 1 else 0)
            && (put && err == ErrVersion ==> cl'.pc == Reading && cl'.clerk == Some(Start(Get(KEY))))
            && (!put ==> cl'.pc.Writing? && cl'.pc.es == Result(cl.clerk.value).val.es + [Entry(c, cl.i)])
  {
    InvHolds(n, acts);
    assert ClientOk(Run(n, acts).store, c, Run(n, acts).clients[c]);
  }
}
