/** One Raft peer: the parts of its state that leader election reads and writes, and the
    code that runs under its lock. */
module RaftPeer {
  datatype Role = Follower | Candidate | Leader

  datatype LogEntry = LogEntry(term: nat, noop: bool, cmd: int)

  /** A log always holds at least the entry at index 0. */
  type Log = l: seq<LogEntry> | |l| > 0 witness [LogEntry(0, true, 0)]

  /** `votedFor` is -1 when the peer voted for nobody. */
  datatype Peer = Peer(term: nat, votedFor: int, role: Role, log: Log)

  datatype VoteArgs = VoteArgs(term: nat, candidate: nat, lastIndex: nat, lastTerm: nat)
  datatype VoteReply = VoteReply(term: nat, granted: bool)
  datatype AppendArgs = AppendArgs(term: nat, leader: nat, prevIndex: nat, prevTerm: nat, entries: seq<LogEntry>)
  datatype AppendReply = AppendReply(term: nat, success: bool)

  /** What a failed RPC leaves in the caller's reply. */
  const NO_REPLY := VoteReply(0, false)

  function LastIndex(log: Log): nat {
    |log| - 1
  }

  function LastTerm(log: Log): nat {
    log[|log| - 1].term
  }

  /** Last term first, then last index. */
  predicate UpToDate(lastTerm: nat, lastIndex: nat, log: Log) {
    lastTerm > LastTerm(log) || (lastTerm == LastTerm(log) && lastIndex >= LastIndex(log))
  }

  function InitPeer(): Peer {
    Peer(0, -1, Follower, [LogEntry(0, true, 0)])
  }

  /** A vote is refused at the peer's own term whatever `votedFor` holds: the source's test
      is a disjunction of two inequalities with different values. */
  function HandleVote(p: Peer, a: VoteArgs): (Peer, VoteReply) {
    if a.term < p.term || (a.term == p.term && (p.votedFor != -1 || p.votedFor != a.candidate))
    then (p, VoteReply(p.term, false))
    else if UpToDate(a.lastTerm, a.lastIndex, p.log)
    then (p.(term := a.term, role := Follower, votedFor := a.candidate), VoteReply(p.term, true))
    else (p.(term := a.term), VoteReply(p.term, false))
  }

  /** A vote is granted exactly to a request of a higher term with a log that is up to date; a
      request of no higher term changes nothing, one that fails on the log raises the term only,
      and every reply reports the term before the request. */
  lemma GrantedIff(p: Peer, a: VoteArgs)
    ensures var (q, r) := HandleVote(p, a);
            && (r.granted <==> a.term > p.term && UpToDate(a.lastTerm, a.lastIndex, p.log))
            && r.term == p.term && q.log == p.log
            && (a.term <= p.term <==> q.term == p.term) && q.term == (if a.term > p.term then a.term else p.term)
            && (if r.granted then q.votedFor == a.candidate && q.role == Follower
                else q.votedFor == p.votedFor && q.role == p.role)
  {
  }

  /** So the handler refuses a repeat of the request it just granted, although it holds the
      candidate's vote, and any other request of that term, whatever its log. */
  lemma RepeatRefused(p: Peer, a: VoteArgs, again: VoteArgs)
    requires HandleVote(p, a).1.granted && again.term == a.term
    ensures var q := HandleVote(p, a).0;
            q.votedFor == a.candidate && HandleVote(q, again) == (q, VoteReply(a.term, false))
  {
    GrantedIff(p, a);
    GrantedIff(HandleVote(p, a).0, again);
  }

  function HandleAppend(p: Peer, a: AppendArgs): (Peer, AppendReply) {
    if a.term < p.term then (p, AppendReply(p.term, false)) else
    var q := p.(term := a.term, role := Follower, votedFor := a.leader);
    if |p.log| > a.prevIndex && p.log[a.prevIndex].term == a.prevTerm
    then (q.(log := p.log[..a.prevIndex + 1] + a.entries), AppendReply(p.term, true))
    else (q, AppendReply(p.term, false))
  }

  /** The previous entry of a heartbeat is in the log. */
  predicate Matches(log: Log, a: AppendArgs) {
    |log| > a.prevIndex && log[a.prevIndex].term == a.prevTerm
  }

  /** A heartbeat is ignored exactly when its term is lower. Otherwise the peer follows its sender at
      its term, and gives it the vote of that term; it succeeds exactly when the previous entry
      matches, and then the log holds the entries up to that one and the sent ones after it. The
      reply reports the term before the heartbeat. */
  lemma HeartbeatEffect(p: Peer, a: AppendArgs)
    ensures var (q, r) := HandleAppend(p, a);
            && r.term == p.term
            && (a.term < p.term ==> q == p && !r.success)
            && (a.term >= p.term ==> q.term == a.term && q.role == Follower && q.votedFor == a.leader)
            && (r.success <==> a.term >= p.term && Matches(p.log, a))
            && (!r.success ==> q.log == p.log)
            && (r.success ==>
                  && |q.log| == a.prevIndex + 1 + |a.entries|
                  && (forall i :: 0 <= i <= a.prevIndex ==> q.log[i] == p.log[i])
                  && (forall i :: 0 <= i < |a.entries| ==> q.log[a.prevIndex + 1 + i] == a.entries[i]))
  {
  }

  /** A peer that followed a heartbeat takes the next one of that term from that leader, if its
      previous entry matches, and a repeat of one that succeeded leaves it as it is. */
  lemma NextHeartbeat(p: Peer, a: AppendArgs, b: AppendArgs)
    requires a.term >= p.term && b.term == a.term && b.leader == a.leader
    ensures var q := HandleAppend(p, a).0;
            && (Matches(q.log, b) ==> HandleAppend(q, b).1 == AppendReply(a.term, true))
            && (HandleAppend(p, a).1.success ==> HandleAppend(q, a) == (q, AppendReply(a.term, true)))
            && HandleAppend(q, b).0.(log := q.log) == q
  {
    HeartbeatEffect(p, a);
    var q := HandleAppend(p, a).0;
    HeartbeatEffect(q, a);
    HeartbeatEffect(q, b);
    if HandleAppend(p, a).1.success {
      assert q.log[..a.prevIndex + 1] + a.entries == q.log;
    }
  }

  /** After a heartbeat of its term a peer grants no vote of that term. */
  lemma HeartbeatBlocksVote(p: Peer, a: AppendArgs, v: VoteArgs)
    requires a.term >= p.term && v.term <= a.term
    ensures var q := HandleAppend(p, a).0; HandleVote(q, v) == (q, VoteReply(a.term, false))
  {
    HeartbeatEffect(p, a);
    GrantedIff(HandleAppend(p, a).0, v);
  }

  /** The end of a heartbeat: a leader that hears of a higher term steps down. */
  function HandleAck(p: Peer, r: AppendReply): Peer {
    if p.role == Leader && !r.success && r.term > p.term
    then p.(term := r.term, role := Follower, votedFor := -1) else p
  }

  /** A leader steps down exactly when a refusal reports a higher term, and takes over that term. */
  lemma AckEffect(p: Peer, r: AppendReply)
    ensures var q := HandleAck(p, r);
            && q.log == p.log
            && (p.role == Leader && q.role != Leader <==> p.role == Leader && !r.success && r.term > p.term)
            && (q != p ==> p.role == Leader && q.role == Follower && q.term == r.term > p.term && q.votedFor == -1)
  {
  }

  function HandleStart(p: Peer, cmd: int): Peer {
    if p.role == Leader then p.(log := p.log + [LogEntry(p.term, false, cmd)]) else p
  }

  /** The top of the candidate loop under the lock: a new election, or none. */
  predicate StepsUp(p: Peer, prevTimeout: bool, leaseExpired: bool) {
    (p.role == Candidate && prevTimeout) || (p.role == Follower && leaseExpired)
  }

  function StartElection(p: Peer, me: nat): Peer {
    p.(role := Candidate, term := p.term + 1, votedFor := me)
  }

  function NoElection(p: Peer): Peer {
    if p.role == Candidate then p.(role := Follower) else p
  }

  /** After a round of the candidate loop a peer is a candidate exactly when it started an election,
      in the next term and with its own vote; a leader never does, a follower does when its lease
      ran out, a candidate when its last election timed out, and else steps down. */
  lemma TickEffect(p: Peer, me: nat, prevTimeout: bool, leaseExpired: bool)
    ensures var q := if StepsUp(p, prevTimeout, leaseExpired) then StartElection(p, me) else NoElection(p);
            && q.log == p.log
            && (q.role == Candidate <==> (p.role == Follower && leaseExpired) || (p.role == Candidate && prevTimeout))
            && (q.role == Candidate ==> q.term == p.term + 1 && q.votedFor == me)
            && (q.role != Candidate ==> q.term == p.term && q.votedFor == p.votedFor)
            && (q.role == Leader <==> p.role == Leader)
  {
  }

  // ---------------------------------------------------------------- counting votes

  function NeedYes(peers: nat): nat {
    peers / 2 + 1
  }

  function NeedNo(peers: nat): int {
    peers - NeedYes(peers) + 1
  }

  /** The tally of an election; `maxTerm` exceeds the election's term once a reply did. */
  datatype Tally = Tally(maxTerm: nat, yes: nat, no: nat, closed: bool)

  function OpenTally(term: nat): Tally {
    Tally(term, 1, 0, false)
  }

  function CountReply(t: Tally, term: nat, peers: nat, r: VoteReply): Tally {
    if r.granted then t.(yes := t.yes + 1, closed := t.yes + 1 >= NeedYes(peers) || t.no >= NeedNo(peers))
    else if r.term > term then t.(maxTerm := r.term, closed := true)
    else t.(no := t.no + 1, closed := t.yes >= NeedYes(peers) || t.no + 1 >= NeedNo(peers))
  }

  function CountAll(term: nat, peers: nat, rs: seq<VoteReply>): Tally {
    if rs == [] then OpenTally(term) else
    var t := CountAll(term, peers, rs[..|rs| - 1]);
    if t.closed then t else CountReply(t, term, peers, rs[|rs| - 1])
  }

  /** What the election does to the peer once its tally is closed. */
  function Conclude(p: Peer, t: Tally, term: nat, peers: nat): Peer {
    if t.maxTerm > term then
      p.(term := if p.term > t.maxTerm then p.term else t.maxTerm, role := Follower, votedFor := -1)
    else if p.role != Candidate then p
    else if t.yes >= NeedYes(peers) then p.(role := Leader)
    else p.(role := Follower)
  }

  /** How many of the replies granted the vote. */
  function Grants(rs: seq<VoteReply>): nat {
    if rs == [] then 0 else Grants(rs[..|rs| - 1]) + (if rs[|rs| - 1].granted then 1 else 0)
  }

  /** How many of the replies refused it without knowing a higher term. */
  function Refusals(term: nat, rs: seq<VoteReply>): nat {
    if rs == [] then 0 else
    Refusals(term, rs[..|rs| - 1]) + (if !rs[|rs| - 1].granted && rs[|rs| - 1].term <= term then 1 else 0)
  }

  /** The tally closes exactly when it is decided: by a majority of grants (the candidate's own
      vote included), by refusals that leave no majority, or by a reply of a higher term; it
      never counts more grants or refusals than there are, however many replies arrive late. */
  lemma {:induction false} CountAllSound(term: nat, peers: nat, rs: seq<VoteReply>)
    ensures var t := CountAll(term, peers, rs);
            && t.yes <= 1 + Grants(rs) && t.no <= Refusals(term, rs) && t.maxTerm >= term
            && (!t.closed ==> t.yes == 1 + Grants(rs) && t.no == Refusals(term, rs))
            && (rs != [] ==> (t.closed <==> t.maxTerm > term || t.yes >= NeedYes(peers) || t.no >= NeedNo(peers)))
            && (t.maxTerm > term ==> exists i :: 0 <= i < |rs| && !rs[i].granted && rs[i].term == t.maxTerm)
  {
    if rs != [] {
      var init := rs[..|rs| - 1];
      CountAllSound(term, peers, init);
      var u := CountAll(term, peers, init);
      if u.maxTerm > term {
        var i :| 0 <= i < |init| && !init[i].granted && init[i].term == u.maxTerm;
        assert rs[i] == init[i];
      }
    }
  }

  predicate Higher(term: nat, r: VoteReply) {
    !r.granted && r.term > term
  }

  /** The election is decided by reply `i`: it knows a higher term, or with it there is a majority
      of grants or no majority left. */
  predicate Decides(term: nat, peers: nat, rs: seq<VoteReply>, i: nat)
    requires i < |rs|
  {
    || Higher(term, rs[i])
    || 1 + Grants(rs[..i + 1]) >= NeedYes(peers)
    || Refusals(term, rs[..i + 1]) >= NeedNo(peers)
  }

  ghost predicate FirstDecides(term: nat, peers: nat, rs: seq<VoteReply>, i: nat) {
    i < |rs| && Decides(term, peers, rs, i) && forall j :: 0 <= j < i ==> !Decides(term, peers, rs, j)
  }

  /** The tally over undecided replies counts them all. */
  lemma {:induction false} CountUndecided(term: nat, peers: nat, rs: seq<VoteReply>)
    requires forall j :: 0 <= j < |rs| ==> !Decides(term, peers, rs, j)
    ensures CountAll(term, peers, rs) == Tally(term, 1 + Grants(rs), Refusals(term, rs), false)
  {
    if rs != [] {
      var init := rs[..|rs| - 1];
      forall j | 0 <= j < |init| ensures !Decides(term, peers, init, j) {
        assert !Decides(term, peers, rs, j) && init[..j + 1] == rs[..j + 1];
      }
      CountUndecided(term, peers, init);
      assert !Decides(term, peers, rs, |rs| - 1) && rs[..|rs|] == rs;
    }
  }

  /** Exactly: the tally is open while no reply decides, and then it is that of the replies up to
      the first one that does, with its term if that is higher; later replies are not looked at. */
  lemma {:induction false} CountAllExact(term: nat, peers: nat, rs: seq<VoteReply>, i: nat)
    requires FirstDecides(term, peers, rs, i)
    ensures CountAll(term, peers, rs) ==
              Tally(if Higher(term, rs[i]) then rs[i].term else term,
                    1 + Grants(rs[..i + 1]), Refusals(term, rs[..i + 1]), true)
  {
    var init := rs[..i];
    forall j | 0 <= j < |init| ensures !Decides(term, peers, init, j) {
      assert !Decides(term, peers, rs, j) && init[..j + 1] == rs[..j + 1];
    }
    CountUndecided(term, peers, init);
    assert rs[..i + 1][..i] == init;
    ClosedStays(term, peers, rs, i + 1);
  }

  lemma {:induction false} FirstExists(term: nat, peers: nat, rs: seq<VoteReply>, j: nat) returns (i: nat)
    requires j < |rs| && Decides(term, peers, rs, j)
    ensures i <= j && FirstDecides(term, peers, rs, i)
  {
    if k: nat :| k < j && Decides(term, peers, rs, k) {
      i := FirstExists(term, peers, rs, k);
    } else {
      i := j;
    }
  }

  /** The tally is open exactly while no reply decides; a refusal of a higher term always closes it. */
  lemma {:induction false} OpenIff(term: nat, peers: nat, rs: seq<VoteReply>)
    ensures CountAll(term, peers, rs).closed <==> exists j :: 0 <= j < |rs| && Decides(term, peers, rs, j)
    ensures (exists j :: 0 <= j < |rs| && Higher(term, rs[j])) ==> CountAll(term, peers, rs).closed
  {
    if j: nat :| j < |rs| && Decides(term, peers, rs, j) {
      var i := FirstExists(term, peers, rs, j);
      CountAllExact(term, peers, rs, i);
    } else {
      CountUndecided(term, peers, rs);
    }
    if j: nat :| j < |rs| && Higher(term, rs[j]) { assert Decides(term, peers, rs, j); }
  }

  /** From the replies to the peer. If the reply that decides knows a higher term, the candidate is a
      follower without a vote, at that term or its own if it is even higher. Else a peer that is no
      candidate any more stays as it is, a candidate with a majority of grants leads, and one without
      follows; terms, votes and logs stay. */
  lemma ElectionOutcome(p: Peer, term: nat, peers: nat, rs: seq<VoteReply>, i: nat)
    requires FirstDecides(term, peers, rs, i)
    ensures var q := Conclude(p, CountAll(term, peers, rs), term, peers);
            && q.log == p.log
            && (Higher(term, rs[i]) ==>
                  q.role == Follower && q.votedFor == -1 && q.term >= rs[i].term && q.term >= p.term
                  && (q.term == rs[i].term || q.term == p.term))
            && (!Higher(term, rs[i]) ==>
                  && q.term == p.term && q.votedFor == p.votedFor
                  && (p.role != Candidate ==> q.role == p.role)
                  && (p.role == Candidate ==>
                        q.role == if 1 + Grants(rs[..i + 1]) >= peers / 2 + 1 then Leader else Follower))
  {
    CountAllExact(term, peers, rs, i);
  }

  /** A refusal for its term reports the voter's term, and the candidate that counts it first of all
      that decide ends at that term or above, as a follower. */
  lemma RefusalTeachesTerm(voter: Peer, a: VoteArgs, p: Peer, peers: nat, rs: seq<VoteReply>, i: nat)
    requires a.term < voter.term && FirstDecides(a.term, peers, rs, i) && rs[i] == HandleVote(voter, a).1
    ensures var t := CountAll(a.term, peers, rs); t.closed && t.maxTerm == voter.term
    ensures var q := Conclude(p, CountAll(a.term, peers, rs), a.term, peers); q.role == Follower && q.term >= voter.term
  {
    GrantedIff(voter, a);
    CountAllExact(a.term, peers, rs, i);
    ElectionOutcome(p, a.term, peers, rs, i);
  }

  /** The inner loop of the candidate loop; running out of replies is the timeout. */
  method CollectVotes(term: nat, peers: nat, replies: seq<VoteReply>) returns (timedOut: bool, t: Tally)
    ensures t == CountAll(term, peers, replies)
    ensures timedOut <==> !exists j :: 0 <= j < |replies| && Decides(term, peers, replies, j)
  {
    OpenIff(term, peers, replies);
    var needY, needN := peers / 2 + 1, peers - (peers / 2 + 1) + 1;
    var maxTerm, votesY, votesN := term, 1, 0;
    for i := 0 to |replies|
      invariant CountAll(term, peers, replies[..i]) == Tally(maxTerm, votesY, votesN, false)
    {
      var r := replies[i];
      assert replies[..i + 1][..i] == replies[..i];
      var stop := false;
      if r.granted {
        votesY := votesY + 1;
      } else if r.term > term {
        maxTerm, stop := r.term, true;
      } else {
        votesN := votesN + 1;
      }
      if stop || votesY >= needY || votesN >= needN {
        t := Tally(maxTerm, votesY, votesN, true);
        ClosedStays(term, peers, replies, i + 1);
        return false, t;
      }
    }
    assert replies[..|replies|] == replies;
    return true, Tally(maxTerm, votesY, votesN, false);
  }

  lemma {:induction false} ClosedStays(term: nat, peers: nat, rs: seq<VoteReply>, i: nat)
    requires i <= |rs| && CountAll(term, peers, rs[..i]).closed
    ensures CountAll(term, peers, rs) == CountAll(term, peers, rs[..i])
  {
    if i < |rs| {
      assert rs[..|rs| - 1][..i] == rs[..i];
      ClosedStays(term, peers, rs[..|rs| - 1], i);
    } else {
      assert rs[..i] == rs;
    }
  }

  // ---------------------------------------------------------------- the object

  class Raft {
    var currentTerm: nat
    var votedFor: int
    var state: Role
    var log: Log

    function View(): Peer
      reads this
    {
      Peer(currentTerm, votedFor, state, log)
    }

    constructor ()
      ensures View() == InitPeer()
    {
      currentTerm, votedFor, state, log := 0, -1, Follower, [LogEntry(0, true, 0)];
    }

    method RequestVote(args: VoteArgs) returns (reply: VoteReply)
      modifies this
      ensures (View(), reply) == HandleVote(old(View()), args)
    {
      var lastLogIndex := |log| - 1;
      var lastLogTerm := log[lastLogIndex].term;
      reply := VoteReply(currentTerm, false);
      if args.term < currentTerm || (args.term == currentTerm && (votedFor != -1 || votedFor != args.candidate)) {
        return;
      }
      currentTerm := args.term;
      if args.lastTerm > lastLogTerm || (args.lastTerm == lastLogTerm && args.lastIndex >= lastLogIndex) {
        state := Follower;
        votedFor := args.candidate;
        reply := reply.(granted := true);
      }
    }

    method AppendEntries(args: AppendArgs) returns (reply: AppendReply)
      modifies this
      ensures (View(), reply) == HandleAppend(old(View()), args)
    {
      reply := AppendReply(currentTerm, false);
      if args.term < currentTerm {
        return;
      }
      currentTerm := args.term;
      state := Follower;
      votedFor := args.leader;
      if |log| > args.prevIndex && log[args.prevIndex].term == args.prevTerm {
        log := log[..args.prevIndex + 1] + args.entries;
        reply := reply.(success := true);
      }
    }

    /** The locked section after the votes were counted. */
    method ConcludeElection(t: Tally, term: nat, peers: nat)
      modifies this
      ensures View() == Conclude(old(View()), t, term, peers)
    {
      if t.maxTerm > term {
        currentTerm := if currentTerm > t.maxTerm then currentTerm else t.maxTerm;
        state := Follower;
        votedFor := -1;
      } else if state == Candidate {
        if t.yes >= NeedYes(peers) {
          state := Leader;
        } else {
          state := Follower;
        }
      }
    }
  }
}
