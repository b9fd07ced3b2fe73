/** Peers in role Leader by their current term. A vote request of a higher term that fails the log
    check raises the receiver's term and leaves its role, so two leaders can come to share a term:
    which step it takes, and for how many peers it happens. */
module RaftLeaders {
  import opened Sets
  import opened RaftPeer
  import opened RaftElection

  predicate LeadersShareTerm(s: State) {
    exists p, q :: 0 <= p < q < |s.peers| && s.peers[p].role == Leader && s.peers[q].role == Leader
                   && s.peers[p].term == s.peers[q].term
  }

  // ---------------------------------------------------------------- which step it takes

  /** The branch at fault: a peer that is leader or candidate learns a higher term from a vote
      request, refuses it on the log, and keeps its role. */
  predicate Raises(p: Peer, a: VoteArgs) {
    p.role != Follower && a.term > p.term && !UpToDate(a.lastTerm, a.lastIndex, p.log)
  }

  predicate RaisingStep(s: State, a: Action) {
    && a.Vote? && Enabled(s, a)
    && var e := Election(a.key.cand, a.key.term);
       Raises(s.peers[a.key.voter], ArgsOf(e, s.adverts[e]))
  }

  predicate NoRaise(n: nat, acts: seq<Action>) {
    acts == [] || (NoRaise(n, acts[..|acts| - 1]) && !RaisingStep(Run(n, acts[..|acts| - 1]), acts[|acts| - 1]))
  }

  /** The peer became leader through an election of its current term. */
  predicate Settled(s: State, p: nat)
    requires p < |s.peers|
  {
    exists i :: 0 <= i < |s.wins| && s.wins[i].cand == p && s.wins[i].term == s.peers[p].term
  }

  /** A leader is at the term it won, a candidate that counts votes at the term of its election. */
  ghost predicate AtItsTerm(s: State, p: nat)
    requires p < |s.peers| && |s.loops| == |s.peers|
  {
    && (s.peers[p].role == Leader ==> Settled(s, p))
    && (s.peers[p].role == Candidate && s.loops[p].Waiting? ==> s.peers[p].term == s.loops[p].term)
  }

  lemma SettledStays(s: State, t: State, p: nat)
    requires p < |s.peers| && p < |t.peers| && Settled(s, p) && t.peers[p].term == s.peers[p].term
    requires |t.wins| >= |s.wins| && t.wins[..|s.wins|] == s.wins
    ensures Settled(t, p)
  {
    var i :| 0 <= i < |s.wins| && s.wins[i].cand == p && s.wins[i].term == s.peers[p].term;
    assert t.wins[..|s.wins|][i] == s.wins[i];
  }

  lemma FinishSettles(s: State, p: nat)
    requires |s.loops| == |s.peers| && Enabled(s, Finish(p)) && AtItsTerm(s, p)
    ensures AtItsTerm(DoFinish(s, p), p)
  {
    var t := DoFinish(s, p);
    if s.peers[p].role == Candidate && t.peers[p].role == Leader {
      assert t.wins[|s.wins|].cand == p && t.wins[|s.wins|].term == t.peers[p].term;
    } else if t.peers[p].role == Leader {
      SettledStays(s, t, p);
    }
  }

  lemma SettleStep(s: State, a: Action, q: nat)
    requires |s.loops| == |s.peers| && q < |s.peers| && AtItsTerm(s, q) && Enabled(s, a) && !RaisingStep(s, a)
    ensures |Do(s, a).peers| == |Do(s, a).loops| == |s.peers| && AtItsTerm(Do(s, a), q)
  {
    var t := Do(s, a);
    if a.Finish? && a.p == q {
      FinishSettles(s, q);
    } else if t.peers[q].role == Leader {
      assert s.peers[q].role == Leader && t.peers[q].term == s.peers[q].term;
      SettledStays(s, t, q);
    }
  }

  lemma {:induction false} AllAtTheirTerm(n: nat, acts: seq<Action>)
    requires NoRaise(n, acts)
    ensures var s := Run(n, acts); |s.peers| == |s.loops| == n && forall q :: 0 <= q < n ==> AtItsTerm(s, q)
  {
    if acts != [] {
      var s, a := Run(n, acts[..|acts| - 1]), acts[|acts| - 1];
      AllAtTheirTerm(n, acts[..|acts| - 1]);
      if Enabled(s, a) {
        SettleQuorum(s, a);
      }
    }
  }

  lemma SettleQuorum(s: State, a: Action)
    requires |s.loops| == |s.peers| && Enabled(s, a) && !RaisingStep(s, a)
    requires forall q :: 0 <= q < |s.peers| ==> AtItsTerm(s, q)
    ensures |Do(s, a).peers| == |Do(s, a).loops| == |s.peers|
    ensures forall q :: 0 <= q < |s.peers| ==> AtItsTerm(Do(s, a), q)
  {
    assert |Do(s, a).peers| == |Do(s, a).loops| == |s.peers|;
    forall q | 0 <= q < |s.peers| ensures AtItsTerm(Do(s, a), q) { SettleStep(s, a, q); }
  }

  /** In every run without a step of that kind, no two leaders share a current term. */
  lemma {:induction false} LeadersDifferWithoutRaise(n: nat, acts: seq<Action>)
    requires NoRaise(n, acts)
    ensures !LeadersShareTerm(Run(n, acts))
  {
    var s := Run(n, acts);
    AllAtTheirTerm(n, acts);
    if LeadersShareTerm(s) {
      var p, q :| 0 <= p < q < |s.peers| && s.peers[p].role == Leader && s.peers[q].role == Leader
                  && s.peers[p].term == s.peers[q].term;
      assert AtItsTerm(s, p) && AtItsTerm(s, q);
      var i :| 0 <= i < |s.wins| && s.wins[i].cand == p && s.wins[i].term == s.peers[p].term;
      var j :| 0 <= j < |s.wins| && s.wins[j].cand == q && s.wins[j].term == s.peers[q].term;
      OneLeaderPerElectionTerm(n, acts, i, j);
    }
  }

  // ---------------------------------------------------------------- up to two peers: never

  /** The latest vote of the peer is its own, in `term`. */
  predicate LastVoteIsOwn(s: State, p: nat, term: nat) {
    && Voted(s, p, Election(p, term))
    && (forall i :: 0 <= i < |s.ballots| && s.ballots[i].voter == p ==> s.ballots[i].term <= term)
  }

  predicate LedByOwnVote(s: State, p: nat, term: nat) {
    LastVoteIsOwn(s, p, term) && Election(p, term) in s.majorities
  }

  /** A leader last voted for itself, in an election that collected a majority; so will a candidate
      that counts votes, once it has won. */
  ghost predicate OwnVoteLast(s: State, p: nat)
    requires p < |s.peers| && |s.loops| == |s.peers|
  {
    && (s.peers[p].role == Leader ==> exists term :: LedByOwnVote(s, p, term))
    && (s.peers[p].role == Candidate && s.loops[p].Waiting? ==> LastVoteIsOwn(s, p, s.loops[p].term))
  }

  /** Votes of others leave a peer's latest vote as it is. */
  lemma LastVoteStays(s: State, t: State, p: nat, term: nat)
    requires LastVoteIsOwn(s, p, term)
    requires VotesOfOthers(s, t, p)
    ensures LastVoteIsOwn(t, p, term)
  {
    var i :| 0 <= i < |s.ballots| && s.ballots[i].voter == p && s.ballots[i].cand == p && s.ballots[i].term == term;
    assert t.ballots[..|s.ballots|][i] == s.ballots[i];
    forall j | 0 <= j < |t.ballots| && t.ballots[j].voter == p ensures t.ballots[j].term <= term {
      if j < |s.ballots| { assert t.ballots[..|s.ballots|][j] == s.ballots[j]; }
    }
  }

  lemma StartVotesLast(s: State, p: nat, leaseExpired: bool)
    requires Inv(s) && Enabled(s, Tick(p, leaseExpired)) && StepsUp(s.peers[p], s.loops[p].prevTimeout, leaseExpired)
    ensures OwnVoteLast(DoTick(s, p, leaseExpired), p)
  {
    var t := DoTick(s, p, leaseExpired);
    assert t.ballots[|s.ballots|] == Ballot(p, p, t.peers[p].term, s.peers[p].log);
    assert Voted(t, p, Election(p, t.peers[p].term));
  }

  lemma FinishVotesLast(s: State, p: nat)
    requires Inv(s) && Enabled(s, Finish(p)) && OwnVoteLast(s, p)
    ensures OwnVoteLast(DoFinish(s, p), p)
  {
    var t := DoFinish(s, p);
    assert LoopOk(s, p);
    if t.peers[p].role == Leader {
      if s.peers[p].role == Candidate {
        LastVoteStays(s, t, p, s.loops[p].term);
        assert LedByOwnVote(t, p, s.loops[p].term);
      } else {
        var term :| LedByOwnVote(s, p, term);
        LastVoteStays(s, t, p, term);
        assert LedByOwnVote(t, p, term);
      }
    }
  }

  /** A step adds at most one vote, and none of peer `q`. */
  predicate VotesOfOthers(s: State, t: State, q: nat) {
    || t.ballots == s.ballots
    || (|t.ballots| == |s.ballots| + 1 && t.ballots[..|s.ballots|] == s.ballots && t.ballots[|s.ballots|].voter != q)
  }

  predicate StartsOrEnds(s: State, a: Action, q: nat)
    requires q < |s.peers| && q < |s.loops|
  {
    || (a.Finish? && a.p == q)
    || (a.Tick? && a.p == q && s.loops[q].Sleeping? && StepsUp(s.peers[q], s.loops[q].prevTimeout, a.leaseExpired))
  }

  /** A step in which peer `q` neither starts nor ends an election makes it follower or keeps its
      role and its votes. */
  lemma OtherSteps(s: State, a: Action, q: nat)
    requires |s.loops| == |s.peers| && q < |s.peers| && Enabled(s, a) && !StartsOrEnds(s, a, q)
    ensures var t := Do(s, a);
            && |t.peers| == |t.loops| == |s.peers| && s.majorities <= t.majorities
            && (t.peers[q].role != Follower ==> t.peers[q].role == s.peers[q].role && VotesOfOthers(s, t, q))
            && (t.loops[q].Waiting? ==> s.loops[q].Waiting? && t.loops[q].term == s.loops[q].term)
  {
  }

  lemma OtherVotesLast(s: State, a: Action, q: nat)
    requires |s.loops| == |s.peers| && q < |s.peers| && OwnVoteLast(s, q) && Enabled(s, a) && !StartsOrEnds(s, a, q)
    ensures |Do(s, a).peers| == |Do(s, a).loops| == |s.peers| && OwnVoteLast(Do(s, a), q)
  {
    var t := Do(s, a);
    OtherSteps(s, a, q);
    if t.peers[q].role == Leader {
      var term :| LedByOwnVote(s, q, term);
      LastVoteStays(s, t, q, term);
      assert LedByOwnVote(t, q, term);
    } else if t.peers[q].role == Candidate && t.loops[q].Waiting? {
      LastVoteStays(s, t, q, s.loops[q].term);
    }
  }

  lemma {:induction false} AllVotedLast(n: nat, acts: seq<Action>)
    ensures var s := Run(n, acts); |s.peers| == |s.loops| == n && forall q :: 0 <= q < n ==> OwnVoteLast(s, q)
  {
    InvHolds(n, acts);
    if acts != [] {
      var s, a := Run(n, acts[..|acts| - 1]), acts[|acts| - 1];
      AllVotedLast(n, acts[..|acts| - 1]);
      InvHolds(n, acts[..|acts| - 1]);
      if Enabled(s, a) {
        forall q | 0 <= q < n ensures OwnVoteLast(Do(s, a), q) { VotesLastStep(s, a, q); }
      }
    }
  }

  lemma VotesLastStep(s: State, a: Action, q: nat)
    requires Inv(s) && q < |s.peers| && OwnVoteLast(s, q) && Enabled(s, a)
    ensures |Do(s, a).peers| == |Do(s, a).loops| == |s.peers| && OwnVoteLast(Do(s, a), q)
  {
    if a.Finish? && a.p == q {
      FinishVotesLast(s, q);
    } else if a.Tick? && a.p == q && StepsUp(s.peers[q], s.loops[q].prevTimeout, a.leaseExpired) {
      StartVotesLast(s, q, a.leaseExpired);
    } else {
      OtherVotesLast(s, a, q);
    }
  }

  /** Of two peers, one that leads by its own latest vote has the other's earlier vote. */
  lemma OtherVotedEarlier(s: State, p: nat, q: nat, term: nat, term': nat)
    requires Inv(s) && |s.peers| == 2 && p < 2 && q < 2 && p != q
    requires LedByOwnVote(s, p, term) && LedByOwnVote(s, q, term')
    ensures term < term'
  {
    var e := Election(p, term);
    assert |Supporters(s, e)| >= 2;
    if q !in Supporters(s, e) {
      assert Supporters(s, e) <= {p};
      SubsetSize(Supporters(s, e), {p});
    }
    var i :| 0 <= i < |s.ballots| && s.ballots[i].voter == q && s.ballots[i].cand == p && s.ballots[i].term == term;
    var j :| 0 <= j < |s.ballots| && s.ballots[j].voter == q && s.ballots[j].cand == q && s.ballots[j].term == term';
    assert i != j;
  }

  /** Up to two peers never have two leaders, whatever their terms. */
  lemma {:induction false} FewPeersOneLeader(n: nat, acts: seq<Action>, p: nat, q: nat)
    requires n <= 2 && p < q < |Run(n, acts).peers|
    ensures !(Run(n, acts).peers[p].role == Leader && Run(n, acts).peers[q].role == Leader)
  {
    var s := Run(n, acts);
    InvHolds(n, acts);
    AllVotedLast(n, acts);
    assert OwnVoteLast(s, p) && OwnVoteLast(s, q);
    if s.peers[p].role == Leader && s.peers[q].role == Leader {
      var t :| LedByOwnVote(s, p, t);
      var u :| LedByOwnVote(s, q, u);
      OtherVotedEarlier(s, p, q, t, u);
      OtherVotedEarlier(s, q, p, u, t);
    }
  }

  // ---------------------------------------------------------------- three peers and more: it happens

  ghost predicate Reachable(n: nat, s: State) {
    exists acts :: Run(n, acts) == s
  }

  lemma StepReaches(n: nat, s: State, a: Action)
    requires Reachable(n, s)
    ensures Reachable(n, Do(s, a))
  {
    var acts :| Run(n, acts) == s;
    assert (acts + [a])[..|acts|] == acts;
    assert Run(n, acts + [a]) == Do(s, a);
  }

  /** The tally of an election of `term` among `n` peers after `k` grants. */
  function Tallied(n: nat, term: nat, k: nat): Tally {
    Tally(term, 1 + k, 0, k > 0 && 1 + k >= NeedYes(n))
  }

  /** In the election of `term` by `p`, begun in state `b`, the peers `lo..lo+k` have granted their
      votes and the candidate has counted them; the other requests are still on their way. */
  ghost predicate Polling(n: nat, b: State, s: State, p: nat, term: nat, lo: nat, k: nat) {
    && p < n && |b.peers| == |b.loops| == |s.peers| == |s.loops| == n
    && (forall v :: 0 <= v < n ==>
          s.peers[v] == if lo <= v < lo + k then Peer(term, p, Follower, b.peers[v].log) else b.peers[v])
    && (forall v :: 0 <= v < n ==> s.loops[v] == if v == p then Waiting(term, Tallied(n, term, k)) else b.loops[v])
    && (forall v :: 0 <= v < n && v != p && !(lo <= v < lo + k) ==>
          RpcKey(p, term, v) in s.rpcs && s.rpcs[RpcKey(p, term, v)] == Sent)
    && Election(p, term) in s.adverts && s.adverts[Election(p, term)] == b.peers[p].log
  }

  /** Peer `v` grants its vote and the reply arrives. */
  lemma VoteArrives(n: nat, s: State, p: nat, term: nat, v: nat) returns (t: State)
    requires Reachable(n, s) && v < |s.peers| && Election(p, term) in s.adverts
    requires RpcKey(p, term, v) in s.rpcs && s.rpcs[RpcKey(p, term, v)] == Sent
    requires var log := s.adverts[Election(p, term)];
             s.peers[v].term < term && UpToDate(LastTerm(log), LastIndex(log), s.peers[v].log)
    ensures Reachable(n, t) && t.adverts == s.adverts && t.loops == s.loops
    ensures t.peers == s.peers[v := Peer(term, p, Follower, s.peers[v].log)]
    ensures t.rpcs == s.rpcs[RpcKey(p, term, v) := Back(VoteReply(s.peers[v].term, true))]
  {
    var key := RpcKey(p, term, v);
    StepReaches(n, s, Vote(key));
    var s1 := DoVote(s, key);
    StepReaches(n, s1, DeliverVote(key));
    t := Do(s1, DeliverVote(key));
  }

  /** The candidate counts a grant. */
  lemma GrantCounted(n: nat, s: State, p: nat, term: nat, v: nat, k: nat) returns (t: State)
    requires Reachable(n, s) && |s.peers| == n && p < |s.loops| && k < n / 2
    requires s.loops[p] == Waiting(term, Tallied(n, term, k))
    requires var key := RpcKey(p, term, v); key in s.rpcs && s.rpcs[key].Back? && s.rpcs[key].reply.granted
    ensures Reachable(n, t) && t.adverts == s.adverts && t.peers == s.peers
    ensures t.loops == s.loops[p := Waiting(term, Tallied(n, term, k + 1))]
    ensures t.rpcs == s.rpcs[RpcKey(p, term, v) := Counted(true)]
  {
    StepReaches(n, s, TakeReply(p, v));
    t := DoTakeReply(s, p, v);
  }

  /** One more peer's vote. */
  lemma OneVote(n: nat, b: State, s: State, p: nat, term: nat, lo: nat, k: nat) returns (t: State)
    requires Reachable(n, s) && Polling(n, b, s, p, term, lo, k) && lo + k < n && !(lo <= p <= lo + k) && k < n / 2
    requires var v := lo + k;
             && b.peers[v].term < term
             && UpToDate(LastTerm(b.peers[p].log), LastIndex(b.peers[p].log), b.peers[v].log)
    ensures Reachable(n, t) && Polling(n, b, t, p, term, lo, k + 1)
  {
    var r := VoteArrives(n, s, p, term, lo + k);
    t := GrantCounted(n, r, p, term, lo + k, k);
  }

  lemma {:induction false} ManyVotes(n: nat, b: State, s: State, p: nat, term: nat, lo: nat, k: nat) returns (t: State)
    requires Reachable(n, s) && Polling(n, b, s, p, term, lo, 0) && lo + k <= n && k <= n / 2 && !(lo <= p < lo + k)
    requires forall v :: lo <= v < lo + k ==>
               b.peers[v].term < term && UpToDate(LastTerm(b.peers[p].log), LastIndex(b.peers[p].log), b.peers[v].log)
    ensures Reachable(n, t) && Polling(n, b, t, p, term, lo, k)
  {
    if k == 0 {
      t := s;
    } else {
      var r := ManyVotes(n, b, s, p, term, lo, k - 1);
      t := OneVote(n, b, r, p, term, lo, k - 1);
    }
  }

  /** A follower that is asleep starts an election. */
  lemma Asks(n: nat, s: State, p: nat, lo: nat) returns (b: State, t: State)
    requires Reachable(n, s) && |s.peers| == |s.loops| == n && p < n
    requires s.loops[p] == Sleeping(false) && s.peers[p].role == Follower
    ensures b == s.(peers := s.peers[p := StartElection(s.peers[p], p)])
    ensures Reachable(n, t) && Polling(n, b, t, p, s.peers[p].term + 1, lo, 0)
  {
    var term := s.peers[p].term + 1;
    StepReaches(n, s, Tick(p, true));
    b := s.(peers := s.peers[p := StartElection(s.peers[p], p)]);
    t := DoTick(s, p, true);
    forall v | 0 <= v < n && v != p ensures RpcKey(p, term, v) in t.rpcs && t.rpcs[RpcKey(p, term, v)] == Sent {
      assert RpcKey(p, term, v) in Requests(n, p, term);
    }
  }

  /** A candidate with a majority turns leader. */
  lemma Turns(n: nat, s: State, p: nat, term: nat) returns (t: State)
    requires n >= 2 && Reachable(n, s) && |s.peers| == |s.loops| == n && p < n && s.peers[p].role == Candidate
    requires s.loops[p] == Waiting(term, Tallied(n, term, n / 2))
    ensures Reachable(n, t) && t.peers == s.peers[p := s.peers[p].(role := Leader)]
    ensures t.loops == s.loops[p := Sleeping(false)] && t.rpcs == s.rpcs && t.adverts == s.adverts
  {
    StepReaches(n, s, Finish(p));
    t := DoFinish(s, p);
  }

  /** With the votes of `lo..lo+n/2` peer `p` turns leader. */
  lemma Wins(n: nat, s: State, p: nat, lo: nat) returns (t: State)
    requires n >= 2 && Reachable(n, s) && |s.peers| == |s.loops| == n && p < n && p < lo && lo + n / 2 <= n
    requires s.loops[p] == Sleeping(false) && s.peers[p].role == Follower
    requires forall v :: lo <= v < lo + n / 2 ==>
               && s.peers[v].term <= s.peers[p].term
               && UpToDate(LastTerm(s.peers[p].log), LastIndex(s.peers[p].log), s.peers[v].log)
    ensures Reachable(n, t) && |t.peers| == n && t.loops == s.loops
    ensures var term := s.peers[p].term + 1;
            && (forall v :: 0 <= v < n ==>
                  t.peers[v] == if v == p then Peer(term, p, Leader, s.peers[p].log)
                                else if lo <= v < lo + n / 2 then Peer(term, p, Follower, s.peers[v].log) else s.peers[v])
            && (forall v :: 0 <= v < lo && v != p ==> RpcKey(p, term, v) in t.rpcs && t.rpcs[RpcKey(p, term, v)] == Sent)
            && Election(p, term) in t.adverts && t.adverts[Election(p, term)] == s.peers[p].log
  {
    var term := s.peers[p].term + 1;
    var b, s1 := Asks(n, s, p, lo);
    var s2 := ManyVotes(n, b, s1, p, term, lo, n / 2);
    t := Turns(n, s2, p, term);
    assert t.loops == s.loops;
  }

  /** Peer 0 wins the first term and takes a command; peer 1 wins the second term without peer 0,
      whose log then refuses peer 1's request but whose term rises. */
  lemma TwoLeadersShareTerm(n: nat) returns (acts: seq<Action>)
    requires n >= 3
    ensures LeadersShareTerm(Run(n, acts))
  {
    assert Run(n, []) == Begin(n);
    var s1 := Wins(n, Begin(n), 0, 1);
    StepReaches(n, s1, Command(0, 7));
    var s2 := Do(s1, Command(0, 7));
    var s3 := Wins(n, s2, 1, 2);
    var key := RpcKey(1, 2, 0);
    StepReaches(n, s3, Vote(key));
    var s4 := DoVote(s3, key);
    assert s4.peers[0].role == Leader && s4.peers[1].role == Leader && s4.peers[0].term == s4.peers[1].term;
    acts :| Run(n, acts) == s4;
  }

  ghost predicate NeverShare(n: nat) {
    forall acts :: !LeadersShareTerm(Run(n, acts))
  }

  /** That no two leaders ever share a current term holds of all runs exactly for up to two peers. */
  lemma NeverShareIff(n: nat)
    ensures NeverShare(n) <==> n <= 2
  {
    if n <= 2 {
      forall acts ensures !LeadersShareTerm(Run(n, acts)) {
        var s := Run(n, acts);
        forall p, q | 0 <= p < q < |s.peers| ensures !(s.peers[p].role == Leader && s.peers[q].role == Leader) {
          FewPeersOneLeader(n, acts, p, q);
        }
      }
    } else {
      var acts := TwoLeadersShareTerm(n);
      assert LeadersShareTerm(Run(n, acts));
    }
  }
}
