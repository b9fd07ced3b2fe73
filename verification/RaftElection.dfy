/** Crash-free runs of a set of Raft peers over a network that loses, delays and reorders
    messages: at most one election of a term collects a majority. */
module RaftElection {
  import opened Sets
  import opened RaftPeer

  /** The vote request of one election to one peer. */
  datatype RpcKey = RpcKey(cand: nat, term: nat, voter: nat)

  /** `Back` is a reply waiting in the election's channel, `Counted` one taken from it. */
  datatype Rpc = Sent | Ran(reply: VoteReply) | Back(reply: VoteReply) | Counted(granted: bool)

  /** Where the candidate loop of a peer stands. */
  datatype Loop = Sleeping(prevTimeout: bool) | Waiting(term: nat, tally: Tally)

  datatype AppendMsg = AppendMsg(to: nat, args: AppendArgs)

  /** A vote given: to `cand` in `term`, by a voter whose log then was `log`. */
  datatype Ballot = Ballot(voter: nat, cand: nat, term: nat, log: Log)

  /** A candidate that turned leader in its election of `term`, and its log at that moment. */
  datatype Win = Win(cand: nat, term: nat, log: Log)

  datatype Election = Election(cand: nat, term: nat)

  /** `appends` and `acks` hold every heartbeat and answer ever sent, so each may arrive late,
      often or never. The last four fields are history variables: the votes given, the log each
      election advertised, the elections whose tally reached a majority, the wins. */
  datatype State = State(
    peers: seq<Peer>, loops: seq<Loop>, rpcs: map<RpcKey, Rpc>, appends: set<AppendMsg>, acks: set<AppendReply>,
    ballots: seq<Ballot>, adverts: map<Election, Log>, majorities: set<Election>, wins: seq<Win>)

  datatype Action =
    | Tick(p: nat, leaseExpired: bool)
    | Vote(key: RpcKey)
    | LoseVote(key: RpcKey)
    | DeliverVote(key: RpcKey)
    | TakeReply(p: nat, voter: nat)
    | Timeout(p: nat)
    | Finish(p: nat)
    | Beat(p: nat, to: nat, prev: nat)
    | Append(msg: AppendMsg)
    | Ack(p: nat, reply: AppendReply)
    | Command(p: nat, cmd: int)

  function Begin(n: nat): State {
    State(seq(n, _ => InitPeer()), seq(n, _ => Sleeping(false)), map[], {}, {}, [], map[], {}, [])
  }

  predicate Enabled(s: State, a: Action) {
    match a
    case Tick(p, _) => p < |s.peers| && p < |s.loops| && s.loops[p].Sleeping?
    case Vote(k) => k in s.rpcs && s.rpcs[k].Sent? && k.voter < |s.peers| && Election(k.cand, k.term) in s.adverts
    case LoseVote(k) => k in s.rpcs && (s.rpcs[k].Sent? || s.rpcs[k].Ran?)
    case DeliverVote(k) => k in s.rpcs && s.rpcs[k].Ran?
    case TakeReply(p, v) =>
      && p < |s.loops| && s.loops[p].Waiting? && !s.loops[p].tally.closed
      && RpcKey(p, s.loops[p].term, v) in s.rpcs && s.rpcs[RpcKey(p, s.loops[p].term, v)].Back?
    case Timeout(p) => p < |s.loops| && s.loops[p].Waiting? && !s.loops[p].tally.closed
    case Finish(p) => p < |s.peers| && p < |s.loops| && s.loops[p].Waiting? && s.loops[p].tally.closed
    case Beat(p, to, prev) => p < |s.peers| && to < |s.peers| && to != p && s.peers[p].role == Leader && prev < |s.peers[p].log|
    case Append(m) => m in s.appends && m.to < |s.peers|
    case Ack(p, r) => p < |s.peers| && r in s.acks
    case Command(p, _) => p < |s.peers|
  }

  /** One request to every other peer. */
  function Requests(n: nat, cand: nat, term: nat): map<RpcKey, Rpc> {
    map v | 0 <= v < n && v != cand :: RpcKey(cand, term, v) := Sent
  }

  function ArgsOf(e: Election, log: Log): VoteArgs {
    VoteArgs(e.term, e.cand, LastIndex(log), LastTerm(log))
  }

  function DoTick(s: State, p: nat, leaseExpired: bool): State
    requires p < |s.peers| && p < |s.loops| && s.loops[p].Sleeping?
  {
    var pr := s.peers[p];
    if !StepsUp(pr, s.loops[p].prevTimeout, leaseExpired) then
      s.(peers := s.peers[p := NoElection(pr)], loops := s.loops[p := Sleeping(false)])
    else
      var pr' := StartElection(pr, p);
      s.(peers := s.peers[p := pr'],
         loops := s.loops[p := Waiting(pr'.term, OpenTally(pr'.term))],
         rpcs := s.rpcs + Requests(|s.peers|, p, pr'.term),
         ballots := s.ballots + [Ballot(p, p, pr'.term, pr.log)],
         adverts := s.adverts[Election(p, pr'.term) := pr.log])
  }

  function DoVote(s: State, k: RpcKey): State
    requires k.voter < |s.peers| && Election(k.cand, k.term) in s.adverts
  {
    var pr, e := s.peers[k.voter], Election(k.cand, k.term);
    var (pr', r) := HandleVote(pr, ArgsOf(e, s.adverts[e]));
    s.(peers := s.peers[k.voter := pr'],
       rpcs := s.rpcs[k := Ran(r)],
       ballots := if r.granted then s.ballots + [Ballot(k.voter, k.cand, k.term, pr.log)] else s.ballots)
  }

  function DoTakeReply(s: State, p: nat, v: nat): State
    requires Enabled(s, TakeReply(p, v))
  {
    var l := s.loops[p];
    var k := RpcKey(p, l.term, v);
    var r := s.rpcs[k].reply;
    var t := CountReply(l.tally, l.term, |s.peers|, r);
    s.(loops := s.loops[p := Waiting(l.term, t)],
       rpcs := s.rpcs[k := Counted(r.granted)],
       majorities := if t.yes >= NeedYes(|s.peers|) then s.majorities + {Election(p, l.term)} else s.majorities)
  }

  function DoFinish(s: State, p: nat): State
    requires p < |s.peers| && p < |s.loops| && s.loops[p].Waiting?
  {
    var l := s.loops[p];
    var pr' := Conclude(s.peers[p], l.tally, l.term, |s.peers|);
    s.(peers := s.peers[p := pr'],
       loops := s.loops[p := Sleeping(false)],
       wins := if s.peers[p].role == Candidate && pr'.role == Leader then s.wins + [Win(p, l.term, pr'.log)] else s.wins)
  }

  function Do(s: State, a: Action): State {
    if !Enabled(s, a) then s else
    match a
    case Tick(p, leaseExpired) => DoTick(s, p, leaseExpired)
    case Vote(k) => DoVote(s, k)
    case LoseVote(k) => s.(rpcs := s.rpcs[k := Back(NO_REPLY)])
    case DeliverVote(k) => s.(rpcs := s.rpcs[k := Back(s.rpcs[k].reply)])
    case TakeReply(p, v) => DoTakeReply(s, p, v)
    case Timeout(p) => s.(loops := s.loops[p := Sleeping(true)])
    case Finish(p) => DoFinish(s, p)
    case Beat(p, to, prev) =>
      var pr := s.peers[p];
      s.(appends := s.appends + {AppendMsg(to, AppendArgs(pr.term, p, prev, pr.log[prev].term, pr.log[prev + 1..]))})
    case Append(m) =>
      var (pr', r) := HandleAppend(s.peers[m.to], m.args);
      s.(peers := s.peers[m.to := pr'], acks := s.acks + {r})
    case Ack(p, r) => s.(peers := s.peers[p := HandleAck(s.peers[p], r)])
    case Command(p, cmd) => s.(peers := s.peers[p := HandleStart(s.peers[p], cmd)])
  }

  function Run(n: nat, acts: seq<Action>): State {
    if acts == [] then Begin(n) else Do(Run(n, acts[..|acts| - 1]), acts[|acts| - 1])
  }

  // ---------------------------------------------------------------- invariant

  predicate Voted(s: State, v: nat, e: Election) {
    exists i :: 0 <= i < |s.ballots| && s.ballots[i].voter == v && s.ballots[i].cand == e.cand && s.ballots[i].term == e.term
  }

  /** Peers that gave their vote of the term to the election. */
  function Supporters(s: State, e: Election): set<nat> {
    set v: nat | v < |s.peers| && Voted(s, v, e)
  }

  /** Peers whose grant the election has counted. */
  function CountedYes(s: State, e: Election): set<nat> {
    set v: nat | v < |s.peers| && RpcKey(e.cand, e.term, v) in s.rpcs && s.rpcs[RpcKey(e.cand, e.term, v)] == Counted(true)
  }

  /** Votes of one peer are in strictly rising terms, and never above its current term. */
  ghost predicate BallotsOk(s: State) {
    && (forall i :: 0 <= i < |s.ballots| ==>
          && s.ballots[i].voter < |s.peers|
          && s.ballots[i].term <= s.peers[s.ballots[i].voter].term
          && Election(s.ballots[i].cand, s.ballots[i].term) in s.adverts
          && var log := s.adverts[Election(s.ballots[i].cand, s.ballots[i].term)];
             UpToDate(LastTerm(log), LastIndex(log), s.ballots[i].log))
    && (forall i, j :: 0 <= i < j < |s.ballots| && s.ballots[i].voter == s.ballots[j].voter ==>
          s.ballots[i].term < s.ballots[j].term)
  }

  ghost predicate RpcsOk(s: State) {
    && (forall e :: e in s.adverts ==> e.cand < |s.peers| && e.term <= s.peers[e.cand].term)
    && (forall k :: k in s.rpcs ==>
          && k.voter < |s.peers| && k.voter != k.cand && Election(k.cand, k.term) in s.adverts
          && ((s.rpcs[k].Ran? || s.rpcs[k].Back?) && s.rpcs[k].reply.granted ==> Voted(s, k.voter, Election(k.cand, k.term)))
          && (s.rpcs[k] == Counted(true) ==> Voted(s, k.voter, Election(k.cand, k.term))))
  }

  ghost predicate LoopOk(s: State, p: nat)
    requires p < |s.peers| && p < |s.loops|
  {
    s.loops[p].Waiting? ==>
      var e := Election(p, s.loops[p].term);
      && e in s.adverts && Voted(s, p, e)
      && s.loops[p].tally.yes == 1 + |CountedYes(s, e)|
      && (s.loops[p].tally.yes >= NeedYes(|s.peers|) && s.loops[p].tally.closed ==> e in s.majorities)
      && (s.peers[p].role == Candidate ==> s.peers[p].log == s.adverts[e])
  }

  ghost predicate MajoritiesOk(s: State) {
    && (forall e :: e in s.majorities ==> |Supporters(s, e)| >= NeedYes(|s.peers|))
    && (forall i :: 0 <= i < |s.wins| ==>
          var e := Election(s.wins[i].cand, s.wins[i].term);
          e in s.adverts && s.wins[i].log == s.adverts[e] && e in s.majorities)
  }

  ghost predicate Inv(s: State) {
    && |s.loops| == |s.peers|
    && BallotsOk(s) && RpcsOk(s) && MajoritiesOk(s)
    && forall p :: 0 <= p < |s.peers| ==> LoopOk(s, p)
  }

  /** Only the state of peer `p` differs; its term did not fall, and it did not turn candidate
      or change its log as a candidate. */
  ghost predicate PeerChange(s: State, t: State, p: nat) {
    && p < |s.peers| && |t.peers| == |s.peers| && (forall q :: 0 <= q < |s.peers| && q != p ==> t.peers[q] == s.peers[q])
    && t.peers[p].term >= s.peers[p].term
    && (t.peers[p].role == Candidate ==> s.peers[p].role == Candidate && t.peers[p].log == s.peers[p].log)
    && t.rpcs == s.rpcs && t.ballots == s.ballots && t.adverts == s.adverts && t.majorities == s.majorities
  }

  lemma PeerChangeKeeps(s: State, t: State, p: nat)
    requires Inv(s) && PeerChange(s, t, p) && |t.loops| == |t.peers|
    requires forall q :: 0 <= q < |t.loops| ==> t.loops[q] == s.loops[q] || t.loops[q].Sleeping?
    ensures BallotsOk(t) && RpcsOk(t)
    ensures forall q :: 0 <= q < |t.peers| ==> LoopOk(t, q)
    ensures forall e :: e in t.majorities ==> |Supporters(t, e)| >= NeedYes(|t.peers|)
  {
    forall v, e ensures Voted(t, v, e) == Voted(s, v, e) { }
    forall e ensures Supporters(t, e) == Supporters(s, e) && CountedYes(t, e) == CountedYes(s, e) { }
    forall q | 0 <= q < |t.peers| ensures LoopOk(t, q) { assert LoopOk(s, q); }
  }

  lemma LocalStep(s: State, a: Action)
    requires Inv(s) && Enabled(s, a)
    requires a.Timeout? || a.Beat? || a.Append? || a.Ack? || a.Command?
    ensures Inv(Do(s, a))
  {
    PeerChangeKeeps(s, Do(s, a), if a.Append? then a.msg.to else a.p);
  }

  lemma ElectionFinishes(s: State, p: nat)
    requires Inv(s) && Enabled(s, Finish(p))
    ensures Inv(DoFinish(s, p))
  {
    assert LoopOk(s, p);
    PeerChangeKeeps(s, DoFinish(s, p), p);
  }

  lemma QuietTick(s: State, p: nat, leaseExpired: bool)
    requires Inv(s) && Enabled(s, Tick(p, leaseExpired))
    requires !StepsUp(s.peers[p], s.loops[p].prevTimeout, leaseExpired)
    ensures Inv(DoTick(s, p, leaseExpired))
  {
    PeerChangeKeeps(s, DoTick(s, p, leaseExpired), p);
  }

  /** Votes are never taken back. */
  lemma VotedGrows(s: State, t: State, b: Ballot, v: nat, e: Election)
    requires t.ballots == s.ballots || t.ballots == s.ballots + [b]
    ensures Voted(s, v, e) ==> Voted(t, v, e)
  {
    if Voted(s, v, e) {
      var i :| 0 <= i < |s.ballots| && s.ballots[i].voter == v && s.ballots[i].cand == e.cand && s.ballots[i].term == e.term;
      assert t.ballots[i] == s.ballots[i];
    }
  }

  lemma SupportGrows(s: State, t: State, b: Ballot, e: Election)
    requires t.ballots == s.ballots || t.ballots == s.ballots + [b]
    requires |t.peers| == |s.peers|
    ensures |Supporters(t, e)| >= |Supporters(s, e)|
  {
    forall v | v in Supporters(s, e) ensures v in Supporters(t, e) { VotedGrows(s, t, b, v, e); }
    SubsetSize(Supporters(s, e), Supporters(t, e));
  }

  lemma RpcReturnsRpcs(s: State, t: State, k: RpcKey, r: Rpc)
    requires RpcsOk(s) && k in s.rpcs && !s.rpcs[k].Counted? && t == s.(rpcs := s.rpcs[k := r])
    requires r.Back? && (r.reply.granted ==> s.rpcs[k].Ran? && s.rpcs[k].reply == r.reply)
    ensures RpcsOk(t)
  {
    forall v, e ensures Voted(t, v, e) == Voted(s, v, e) { }
  }

  lemma RpcReturnsLoop(s: State, t: State, k: RpcKey, r: Rpc, p: nat)
    requires p < |s.peers| == |s.loops| && LoopOk(s, p) && k in s.rpcs && !s.rpcs[k].Counted? && r.Back?
    requires t == s.(rpcs := s.rpcs[k := r])
    ensures LoopOk(t, p)
  {
    if s.loops[p].Waiting? {
      var e := Election(p, s.loops[p].term);
      assert CountedYes(t, e) == CountedYes(s, e) && Voted(t, p, e) == Voted(s, p, e);
    }
  }

  /** A reply on its way back. */
  lemma RpcReturns(s: State, t: State, k: RpcKey, r: Rpc)
    requires Inv(s) && k in s.rpcs && !s.rpcs[k].Counted? && t == s.(rpcs := s.rpcs[k := r])
    requires r.Back? && (r.reply.granted ==> s.rpcs[k].Ran? && s.rpcs[k].reply == r.reply)
    ensures Inv(t)
  {
    RpcReturnsRpcs(s, t, k, r);
    forall e ensures Supporters(t, e) == Supporters(s, e) { }
    forall p | 0 <= p < |t.peers| ensures LoopOk(t, p) { RpcReturnsLoop(s, t, k, r, p); }
  }

  // ---- a peer starts an election

  lemma BallotAdded(s: State, t: State, b: Ballot)
    requires Inv(s) && b.voter < |s.peers| && b.term > s.peers[b.voter].term
    requires t.ballots == s.ballots + [b] && |t.peers| == |s.peers| && t.peers[b.voter].term >= b.term
    requires forall q :: 0 <= q < |s.peers| ==> t.peers[q].term >= s.peers[q].term
    requires forall e :: e in s.adverts ==> e in t.adverts && t.adverts[e] == s.adverts[e]
    requires Election(b.cand, b.term) in t.adverts
    requires var log := t.adverts[Election(b.cand, b.term)]; UpToDate(LastTerm(log), LastIndex(log), b.log)
    ensures BallotsOk(t)
  {
  }

  lemma StartBallots(s: State, p: nat, leaseExpired: bool)
    requires Inv(s) && Enabled(s, Tick(p, leaseExpired))
    requires StepsUp(s.peers[p], s.loops[p].prevTimeout, leaseExpired)
    ensures var t := DoTick(s, p, leaseExpired);
            BallotsOk(t) && Voted(t, p, Election(p, t.peers[p].term)) && Election(p, t.peers[p].term) !in s.adverts
  {
    var t := DoTick(s, p, leaseExpired);
    var b := Ballot(p, p, t.peers[p].term, s.peers[p].log);
    BallotAdded(s, t, b);
    assert t.ballots[|s.ballots|] == b;
  }

  lemma StartRpcs(s: State, p: nat, leaseExpired: bool)
    requires Inv(s) && Enabled(s, Tick(p, leaseExpired))
    requires StepsUp(s.peers[p], s.loops[p].prevTimeout, leaseExpired)
    ensures RpcsOk(DoTick(s, p, leaseExpired))
  {
    var t := DoTick(s, p, leaseExpired);
    var b := Ballot(p, p, t.peers[p].term, s.peers[p].log);
    forall v, f ensures Voted(s, v, f) ==> Voted(t, v, f) { VotedGrows(s, t, b, v, f); }
  }

  lemma StartLoops(s: State, p: nat, leaseExpired: bool, q: nat)
    requires Inv(s) && Enabled(s, Tick(p, leaseExpired)) && q < |s.peers|
    requires StepsUp(s.peers[p], s.loops[p].prevTimeout, leaseExpired)
    ensures LoopOk(DoTick(s, p, leaseExpired), q)
  {
    var t := DoTick(s, p, leaseExpired);
    var e := Election(p, t.peers[p].term);
    StartBallots(s, p, leaseExpired);
    assert LoopOk(s, q);
    if q == p {
      assert CountedYes(t, e) == {};
    } else if s.loops[q].Waiting? {
      var f := Election(q, s.loops[q].term);
      VotedGrows(s, t, Ballot(p, p, e.term, s.peers[p].log), q, f);
      assert CountedYes(t, f) == CountedYes(s, f);
    }
  }

  lemma ElectionStarts(s: State, p: nat, leaseExpired: bool)
    requires Inv(s) && Enabled(s, Tick(p, leaseExpired))
    requires StepsUp(s.peers[p], s.loops[p].prevTimeout, leaseExpired)
    ensures Inv(DoTick(s, p, leaseExpired))
  {
    var t := DoTick(s, p, leaseExpired);
    StartBallots(s, p, leaseExpired);
    StartRpcs(s, p, leaseExpired);
    forall f | f in t.majorities ensures |Supporters(t, f)| >= NeedYes(|t.peers|) {
      SupportGrows(s, t, Ballot(p, p, t.peers[p].term, s.peers[p].log), f);
    }
    forall q | 0 <= q < |t.peers| ensures LoopOk(t, q) { StartLoops(s, p, leaseExpired, q); }
  }

  // ---- a peer answers a vote request

  lemma VoteLoops(s: State, k: RpcKey, q: nat)
    requires Inv(s) && Enabled(s, Vote(k)) && q < |s.peers|
    ensures LoopOk(DoVote(s, k), q)
  {
    var t := DoVote(s, k);
    assert LoopOk(s, q);
    if s.loops[q].Waiting? {
      var f := Election(q, s.loops[q].term);
      VotedGrows(s, t, Ballot(k.voter, k.cand, k.term, s.peers[k.voter].log), q, f);
      assert CountedYes(t, f) == CountedYes(s, f);
    }
  }

  lemma VoteBallots(s: State, k: RpcKey)
    requires Inv(s) && Enabled(s, Vote(k))
    ensures BallotsOk(DoVote(s, k))
    ensures DoVote(s, k).rpcs[k].reply.granted ==> Voted(DoVote(s, k), k.voter, Election(k.cand, k.term))
  {
    var t, b := DoVote(s, k), Ballot(k.voter, k.cand, k.term, s.peers[k.voter].log);
    if t.rpcs[k].reply.granted {
      BallotAdded(s, t, b);
      assert t.ballots[|s.ballots|] == b;
    }
  }

  lemma VoteRpcs(s: State, k: RpcKey)
    requires Inv(s) && Enabled(s, Vote(k))
    ensures RpcsOk(DoVote(s, k))
  {
    var t, b := DoVote(s, k), Ballot(k.voter, k.cand, k.term, s.peers[k.voter].log);
    VoteBallots(s, k);
    forall v, f ensures Voted(s, v, f) ==> Voted(t, v, f) { VotedGrows(s, t, b, v, f); }
  }

  lemma VoteAnswered(s: State, k: RpcKey)
    requires Inv(s) && Enabled(s, Vote(k))
    ensures Inv(DoVote(s, k))
  {
    var t := DoVote(s, k);
    VoteBallots(s, k);
    VoteRpcs(s, k);
    forall f | f in t.majorities ensures |Supporters(t, f)| >= NeedYes(|t.peers|) {
      SupportGrows(s, t, Ballot(k.voter, k.cand, k.term, s.peers[k.voter].log), f);
    }
    forall q | 0 <= q < |t.peers| ensures LoopOk(t, q) { VoteLoops(s, k, q); }
  }

  // ---- a candidate takes a reply from its channel

  /** The grants counted are those of different peers, none of them the candidate. */
  lemma CountedSupport(s: State, e: Election)
    requires RpcsOk(s) && e in s.adverts && Voted(s, e.cand, e)
    ensures 1 + |CountedYes(s, e)| <= |Supporters(s, e)|
  {
    var yes := CountedYes(s, e);
    assert e.cand !in yes;
    assert yes + {e.cand} <= Supporters(s, e);
    SubsetSize(yes + {e.cand}, Supporters(s, e));
  }

  lemma ReplyRpcs(s: State, p: nat, v: nat)
    requires Inv(s) && Enabled(s, TakeReply(p, v))
    ensures var t := DoTakeReply(s, p, v);
            && BallotsOk(t) && RpcsOk(t) && (forall f :: Supporters(t, f) == Supporters(s, f))
  {
    var t := DoTakeReply(s, p, v);
    forall w, f ensures Voted(t, w, f) == Voted(s, w, f) { }
    forall f ensures Supporters(t, f) == Supporters(s, f) { }
  }

  /** Taking a reply counts its voter, if it granted, and no one else for any election. */
  lemma ReplyCounts(s: State, p: nat, v: nat, e: Election)
    requires Enabled(s, TakeReply(p, v)) && (forall k :: k in s.rpcs ==> k.voter < |s.peers|)
    ensures var t, mine := DoTakeReply(s, p, v), e == Election(p, s.loops[p].term);
            |CountedYes(t, e)| == |CountedYes(s, e)|
              + if mine && s.rpcs[RpcKey(p, s.loops[p].term, v)].reply.granted then 1 else 0
  {
    var t, k := DoTakeReply(s, p, v), RpcKey(p, s.loops[p].term, v);
    if e == Election(p, s.loops[p].term) && s.rpcs[k].reply.granted {
      assert CountedYes(t, e) == CountedYes(s, e) + {v};
    } else {
      assert CountedYes(t, e) == CountedYes(s, e);
    }
  }

  lemma ReplyLoops(s: State, p: nat, v: nat, q: nat)
    requires Inv(s) && Enabled(s, TakeReply(p, v)) && q < |s.peers|
    ensures LoopOk(DoTakeReply(s, p, v), q)
  {
    assert LoopOk(s, q);
    if s.loops[q].Waiting? {
      var e := Election(q, s.loops[q].term);
      ReplyCounts(s, p, v, e);
      assert Voted(DoTakeReply(s, p, v), q, e) == Voted(s, q, e);
    }
  }

  lemma ReplyTaken(s: State, p: nat, v: nat)
    requires Inv(s) && Enabled(s, TakeReply(p, v))
    ensures Inv(DoTakeReply(s, p, v))
  {
    var t, e := DoTakeReply(s, p, v), Election(p, s.loops[p].term);
    ReplyRpcs(s, p, v);
    forall q | 0 <= q < |t.peers| ensures LoopOk(t, q) { ReplyLoops(s, p, v, q); }
    assert LoopOk(t, p);
    CountedSupport(t, e);
  }

  lemma {:induction false} InvHolds(n: nat, acts: seq<Action>)
    ensures |Run(n, acts).peers| == n && Inv(Run(n, acts))
  {
    if acts != [] {
      InvHolds(n, acts[..|acts| - 1]);
      InvStep(Run(n, acts[..|acts| - 1]), acts[|acts| - 1]);
    }
  }

  lemma InvStep(s: State, a: Action)
    requires Inv(s)
    ensures |Do(s, a).peers| == |s.peers| && Inv(Do(s, a))
  {
    if Enabled(s, a) {
      match a
      case Tick(p, lease) =>
        if StepsUp(s.peers[p], s.loops[p].prevTimeout, lease) { ElectionStarts(s, p, lease); } else { QuietTick(s, p, lease); }
      case Vote(k) => VoteAnswered(s, k);
      case LoseVote(k) => RpcReturns(s, Do(s, a), k, Back(NO_REPLY));
      case DeliverVote(k) => RpcReturns(s, Do(s, a), k, Back(s.rpcs[k].reply));
      case TakeReply(p, v) => ReplyTaken(s, p, v);
      case Finish(p) => ElectionFinishes(s, p);
      case _ => LocalStep(s, a);
    }
  }

  // ---------------------------------------------------------------- results

  /** A peer votes at most once per term, for itself or for another: its votes are in strictly
      rising terms, although `votedFor` is overwritten and reset elsewhere. */
  lemma OneVotePerTerm(n: nat, acts: seq<Action>, i: nat, j: nat)
    requires var bs := Run(n, acts).ballots; i < j < |bs| && bs[i].voter == bs[j].voter
    ensures var bs := Run(n, acts).ballots; bs[i].term < bs[j].term
  {
    InvHolds(n, acts);
  }

  /** In every run at most one election of a term collects a majority of votes. */
  lemma ElectionUniqueness(n: nat, acts: seq<Action>, e: Election, f: Election)
    requires e in Run(n, acts).majorities && f in Run(n, acts).majorities && e.term == f.term
    ensures e == f
  {
    InvHolds(n, acts);
    var s := Run(n, acts);
    var v := MajoritiesMeet(Supporters(s, e), Supporters(s, f), n);
    var i :| 0 <= i < |s.ballots| && s.ballots[i].voter == v && s.ballots[i].cand == e.cand && s.ballots[i].term == e.term;
    var j :| 0 <= j < |s.ballots| && s.ballots[j].voter == v && s.ballots[j].cand == f.cand && s.ballots[j].term == f.term;
    assert !(i < j) && !(j < i);
  }

  lemma MajoritiesMeet(a: set<nat>, b: set<nat>, n: nat) returns (v: nat)
    requires (forall x :: x in a ==> x < n) && (forall x :: x in b ==> x < n)
    requires |a| >= NeedYes(n) && |b| >= NeedYes(n)
    ensures v in a && v in b
  {
    if a * b == {} {
      BelowN(a + b, n);
      assert false;
    }
    v :| v in a * b;
  }

  lemma {:induction false} BelowN(a: set<nat>, n: nat)
    requires forall x :: x in a ==> x < n
    ensures |a| <= n
  {
    if n == 0 {
      if x :| x in a { assert false; }
    } else {
      BelowN(a - {n - 1}, n - 1);
    }
  }

  /** A candidate becomes leader only through an election that collected a majority, with the
      log it advertised; that log was at least as up to date as the log of every voter when it voted. */
  lemma WinnerIsFit(n: nat, acts: seq<Action>, i: nat)
    requires i < |Run(n, acts).wins|
    ensures var s := Run(n, acts); var w := s.wins[i]; var e := Election(w.cand, w.term);
            && e in s.majorities && |Supporters(s, e)| >= n / 2 + 1
            && e in s.adverts && w.log == s.adverts[e]
            && (forall b :: b in s.ballots && b.cand == w.cand && b.term == w.term ==>
                  UpToDate(LastTerm(w.log), LastIndex(w.log), b.log))
  {
    InvHolds(n, acts);
  }

  /** So no two peers ever become leader through elections of one term. */
  lemma OneLeaderPerElectionTerm(n: nat, acts: seq<Action>, i: nat, j: nat)
    requires var ws := Run(n, acts).wins; i < |ws| && j < |ws| && ws[i].term == ws[j].term
    ensures Run(n, acts).wins[i].cand == Run(n, acts).wins[j].cand
  {
    var s := Run(n, acts);
    WinnerIsFit(n, acts, i);
    WinnerIsFit(n, acts, j);
    ElectionUniqueness(n, acts, Election(s.wins[i].cand, s.wins[i].term), Election(s.wins[j].cand, s.wins[j].term));
  }
}
