/** What the peers' steps achieve together: refusals, heartbeats and commands, from one peer's
    handler through the network to another peer's state. */
module RaftSteps {
  import opened RaftPeer
  import opened RaftElection

  // ---------------------------------------------------------------- terms

  lemma TermStep(s: State, a: Action, p: nat)
    requires p < |s.peers|
    ensures |Do(s, a).peers| == |s.peers| && Do(s, a).peers[p].term >= s.peers[p].term
  {
  }

  lemma RunExtends(n: nat, acts: seq<Action>, a: Action)
    ensures Run(n, acts + [a]) == Do(Run(n, acts), a)
  {
    var all := acts + [a];
    assert all != [] && all[..|all| - 1] == acts && all[|all| - 1] == a;
    assert Run(n, all) == Do(Run(n, all[..|all| - 1]), all[|all| - 1]);
  }

  /** No peer's term ever falls. */
  lemma {:induction false} TermsNeverFall(n: nat, acts: seq<Action>, more: seq<Action>, p: nat)
    requires p < |Run(n, acts).peers|
    ensures |Run(n, acts + more).peers| == |Run(n, acts).peers|
    ensures Run(n, acts + more).peers[p].term >= Run(n, acts).peers[p].term
  {
    if more == [] {
      assert acts + more == acts;
    } else {
      var init := more[..|more| - 1];
      TermsNeverFall(n, acts, init, p);
      RunExtends(n, acts + init, more[|more| - 1]);
      assert acts + more == acts + init + [more[|more| - 1]];
      TermStep(Run(n, acts + init), more[|more| - 1], p);
    }
  }

  // ---------------------------------------------------------------- a refused election

  /** The vote request of an election reaches a peer of a higher term. */
  ghost predicate Outdated(s: State, k: RpcKey) {
    && |s.loops| == |s.peers| && k.cand < |s.peers| && k.voter < |s.peers| && k.voter != k.cand
    && Enabled(s, Vote(k)) && s.peers[k.voter].term > k.term
    && s.loops[k.cand].Waiting? && s.loops[k.cand].term == k.term && !s.loops[k.cand].tally.closed
  }

  /** The reply comes back with the voter's term. */
  lemma RefusalComesBack(s: State, k: RpcKey) returns (t: State)
    requires Outdated(s, k)
    ensures t == Do(Do(s, Vote(k)), DeliverVote(k))
    ensures t.peers == s.peers && t.loops == s.loops && k in t.rpcs && t.rpcs[k] == Back(VoteReply(s.peers[k.voter].term, false))
  {
    var e := Election(k.cand, k.term);
    GrantedIff(s.peers[k.voter], ArgsOf(e, s.adverts[e]));
    var s1 := DoVote(s, k);
    assert HandleVote(s.peers[k.voter], ArgsOf(e, s.adverts[e])).0 == s.peers[k.voter];
    t := Do(s1, DeliverVote(k));
  }

  /** Asked, answered, counted and concluded, an election with an outdated term makes its candidate a
      follower without a vote that knows the voter's term; the voter stays as it is. */
  lemma RefusalReachesCandidate(s: State, k: RpcKey)
    requires Outdated(s, k)
    ensures var t := Do(Do(Do(Do(s, Vote(k)), DeliverVote(k)), TakeReply(k.cand, k.voter)), Finish(k.cand));
            && |t.peers| == |s.peers| && t.peers[k.voter] == s.peers[k.voter]
            && t.peers[k.cand].role == Follower && t.peers[k.cand].votedFor == -1
            && t.peers[k.cand].term >= s.peers[k.voter].term && t.loops[k.cand] == Sleeping(false)
            && t.wins == s.wins
  {
    var s2 := RefusalComesBack(s, k);
    var s3 := DoTakeReply(s2, k.cand, k.voter);
    assert s3.loops[k.cand].tally.closed && s3.loops[k.cand].tally.maxTerm == s.peers[k.voter].term;
  }

  /** A request that is lost, or whose reply is, counts as a refusal that knows no higher term, at its
      candidate; no peer changes, and no vote is taken back. */
  lemma LostVoteIsRefusal(s: State, k: RpcKey)
    requires Enabled(s, LoseVote(k)) && k.cand < |s.loops| && k.cand < |s.peers|
    requires s.loops[k.cand].Waiting? && s.loops[k.cand].term == k.term && !s.loops[k.cand].tally.closed
    ensures var t, tally := Do(Do(s, LoseVote(k)), TakeReply(k.cand, k.voter)), s.loops[k.cand].tally;
            && t.peers == s.peers && t.ballots == s.ballots
            && t.loops == s.loops[k.cand := Waiting(k.term, tally.(
                 no := tally.no + 1,
                 closed := tally.yes >= NeedYes(|s.peers|) || tally.no + 1 >= NeedNo(|s.peers|)))]
  {
    var s1 := Do(s, LoseVote(k));
    assert k == RpcKey(k.cand, k.term, k.voter) && s1.rpcs[k] == Back(NO_REPLY);
  }

  /** An election without a decision is given up, and the peer, if it is still a candidate, starts the
      next one at once, in the next term, with its own vote and requests to all others; otherwise it
      waits for its lease. */
  lemma TimeoutRetries(s: State, p: nat, leaseExpired: bool)
    requires |s.loops| == |s.peers| && Enabled(s, Timeout(p))
    ensures var t := Do(Do(s, Timeout(p)), Tick(p, leaseExpired));
            var pr, term := s.peers[p], s.peers[p].term + 1;
            && |t.peers| == |s.peers| && |t.loops| == |s.loops|
            && (pr.role == Candidate || (pr.role == Follower && leaseExpired) ==>
                  && t.peers[p] == Peer(term, p, Candidate, pr.log)
                  && t.loops[p] == Waiting(term, Tally(term, 1, 0, false))
                  && (forall v: nat :: v < |s.peers| && v != p ==>
                        RpcKey(p, term, v) in t.rpcs && t.rpcs[RpcKey(p, term, v)] == Sent))
            && (pr.role == Leader || (pr.role == Follower && !leaseExpired) ==>
                  t.peers == s.peers && t.loops[p] == Sleeping(false))
  {
    var s1 := Do(s, Timeout(p));
    assert s1.loops[p] == Sleeping(true) && s1.peers == s.peers;
    var t := Do(s1, Tick(p, leaseExpired));
    var term := s.peers[p].term + 1;
    forall v: nat | v < |s.peers| && v != p ensures RpcKey(p, term, v) in Requests(|s.peers|, p, term) { }
  }

  // ---------------------------------------------------------------- heartbeats

  function Heartbeat(s: State, p: nat, to: nat, prev: nat): AppendMsg
    requires p < |s.peers| && prev < |s.peers[p].log|
  {
    var log := s.peers[p].log;
    AppendMsg(to, AppendArgs(s.peers[p].term, p, prev, log[prev].term, log[prev + 1..]))
  }

  /** A heartbeat sent and received at once. */
  function Received(s: State, p: nat, to: nat, prev: nat): State
    requires Enabled(s, Beat(p, to, prev))
  {
    Do(Do(s, Beat(p, to, prev)), Append(Heartbeat(s, p, to, prev)))
  }

  lemma ReceivedEffect(s: State, p: nat, to: nat, prev: nat)
    requires Enabled(s, Beat(p, to, prev))
    ensures var t := Received(s, p, to, prev); var (q, r) := HandleAppend(s.peers[to], Heartbeat(s, p, to, prev).args);
            t.peers == s.peers[to := q] && r in t.acks
  {
    var s1 := Do(s, Beat(p, to, prev));
    assert Heartbeat(s, p, to, prev) in s1.appends;
  }

  /** A leader whose heartbeat meets a peer of a higher term steps down to that term when it hears
      the answer, and nobody else changes. */
  lemma HeartbeatDeposes(s: State, p: nat, to: nat, prev: nat)
    requires Enabled(s, Beat(p, to, prev)) && s.peers[to].term > s.peers[p].term
    ensures var t := Do(Received(s, p, to, prev), Ack(p, AppendReply(s.peers[to].term, false)));
            t.peers == s.peers[p := Peer(s.peers[to].term, -1, Follower, s.peers[p].log)]
  {
    var a := Heartbeat(s, p, to, prev).args;
    ReceivedEffect(s, p, to, prev);
    HeartbeatEffect(s.peers[to], a);
    assert HandleAppend(s.peers[to], a).0 == s.peers[to];
    var t := Received(s, p, to, prev);
    assert t.peers == s.peers;
  }

  /** Two logs have an entry of one term at an index. */
  predicate Agree(a: Log, b: Log, i: nat) {
    i < |a| && i < |b| && a[i].term == b[i].term
  }

  /** Peer `q`, which was `before`, follows leader number `p`, which is `lead`. If its log agreed at
      the previous entry, it is now the leader's from there on; otherwise it stayed. */
  ghost predicate FollowsLeader(before: Peer, q: Peer, lead: Peer, p: nat, prev: nat) {
    && q.term == lead.term && q.role == Follower && q.votedFor == p
    && if Agree(before.log, lead.log, prev)
       then && |q.log| == |lead.log|
            && (forall i :: prev < i < |lead.log| ==> q.log[i] == lead.log[i])
            && (forall i :: 0 <= i <= prev ==> q.log[i] == before.log[i])
       else q.log == before.log
  }

  lemma HeartbeatFollows(before: Peer, lead: Peer, p: nat, prev: nat)
    requires prev < |lead.log| && before.term <= lead.term
    ensures var (q, r) := HandleAppend(before, AppendArgs(lead.term, p, prev, lead.log[prev].term, lead.log[prev + 1..]));
            FollowsLeader(before, q, lead, p, prev) && r == AppendReply(before.term, Agree(before.log, lead.log, prev))
  {
    var a := AppendArgs(lead.term, p, prev, lead.log[prev].term, lead.log[prev + 1..]);
    HeartbeatEffect(before, a);
    if Agree(before.log, lead.log, prev) {
      var q := HandleAppend(before, a).0;
      forall i | prev < i < |lead.log| ensures q.log[i] == lead.log[i] {
        assert q.log[prev + 1 + (i - prev - 1)] == a.entries[i - prev - 1];
      }
    }
  }

  /** A heartbeat that meets no higher term makes its receiver follow the leader and changes no other
      peer; the leader keeps its role when it hears the answer. */
  lemma HeartbeatCopies(s: State, p: nat, to: nat, prev: nat)
    requires Enabled(s, Beat(p, to, prev)) && s.peers[to].term <= s.peers[p].term
    ensures var t := Received(s, p, to, prev);
            && |t.peers| == |s.peers| && (forall i :: 0 <= i < |s.peers| && i != to ==> t.peers[i] == s.peers[i])
            && FollowsLeader(s.peers[to], t.peers[to], s.peers[p], p, prev)
            && var r := AppendReply(s.peers[to].term, Agree(s.peers[to].log, s.peers[p].log, prev));
               r in t.acks && HandleAck(s.peers[p], r) == s.peers[p]
  {
    ReceivedEffect(s, p, to, prev);
    HeartbeatFollows(s.peers[to], s.peers[p], p, prev);
  }

  /** A command given to a leader is, after its next heartbeat to a peer with a matching log and no
      higher term, the last entry of both logs, under the leader's term. */
  lemma CommandReaches(s: State, p: nat, cmd: int, to: nat, prev: nat)
    requires Enabled(s, Beat(p, to, prev)) && s.peers[to].term <= s.peers[p].term
    requires Agree(s.peers[to].log, s.peers[p].log, prev)
    ensures var s1, n := Do(s, Command(p, cmd)), |s.peers[p].log|;
            Enabled(s1, Beat(p, to, prev)) &&
            var t := Received(s1, p, to, prev);
            && |t.peers| == |s.peers| && t.peers[p].log == s.peers[p].log + [LogEntry(s.peers[p].term, false, cmd)]
            && |t.peers[to].log| == n + 1 && t.peers[to].log[n] == LogEntry(s.peers[p].term, false, cmd)
  {
    var s1 := Do(s, Command(p, cmd));
    assert s1.peers[p] == s.peers[p].(log := s.peers[p].log + [LogEntry(s.peers[p].term, false, cmd)]);
    HeartbeatCopies(s1, p, to, prev);
  }

  /** A command is refused by a peer that does not lead. */
  lemma CommandIgnored(s: State, p: nat, cmd: int)
    requires p < |s.peers| && s.peers[p].role != Leader
    ensures Do(s, Command(p, cmd)) == s
  {
    assert s.peers[p := s.peers[p]] == s.peers;
  }
}
