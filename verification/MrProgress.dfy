/** The coordinator is never stuck: from every state of every run the job can still be brought to its
    end. And what becomes of a completion, of an expiry, and of the tasks' numbers on the way. */
module MrProgress {
  import opened Sets
  import opened MrScheduler

  // ---------------------------------------------------------------- completions and expiries

  /** In every phase, a completion of a pending uuid puts exactly its task into `finished`. */
  lemma CompletionFinishes(s: State)
    requires s.held.Nothing? && s.completed != [] && s.completed[0] in s.pending
    ensures var u, t := s.completed[0], Step(Step(s, TakeCompleted), Send);
            && t.finished == s.finished + [s.pending[u]] && t.tasks == s.tasks && t.held == Nothing
            && t.pending == s.pending - {u} && t.completed == s.completed[1..]
  {
  }

  /** A completion of any other uuid is dropped. */
  lemma CompletionDropped(s: State)
    requires s.held.Nothing? && s.completed != [] && s.completed[0] !in s.pending
    ensures Step(s, TakeCompleted) == s.(completed := s.completed[1..])
  {
  }

  /** In every phase, an expiry puts exactly its task back into `tasks`, and a later completion of
      that uuid is dropped. */
  lemma ExpiryRequeues(s: State, u: nat)
    requires s.held.Nothing? && u in s.pending
    ensures var t := Step(Step(s, Expire(u)), Send);
            && t.tasks == s.tasks + [s.pending[u]] && t.finished == s.finished && t.held == Nothing
            && t.pending == s.pending - {u} && u !in t.pending
  {
  }

  // ---------------------------------------------------------------- room in the channels

  ghost predicate ChannelsOk(s: State) {
    |s.tasks| <= s.files && |s.pendingCh| <= s.files && |s.completed| <= s.files && |s.finished| <= s.files
  }

  lemma RoomyStep(s: State, a: Action)
    requires ChannelsOk(s) && Ready(s, a) && HasRoom(s, a)
    ensures ChannelsOk(Step(s, a)) && Step(s, a).files == s.files
  {
  }

  /** A send on an unbuffered channel and its receive leave it empty. */
  lemma MeetingStep(s: State, a: Action)
    requires ChannelsOk(s) && a.Meet? && Enabled(s, a)
    ensures ChannelsOk(Do(s, a)) && Do(s, a).files == s.files
  {
    var s1 := Step(s, a.send);
    if a.recv.Receive? {
      assert |s1.tasks| == 1;
    } else if a.recv.TakePending? {
      assert |s1.pendingCh| == 1;
    } else if a.recv.TakeCompleted? {
      assert |s1.completed| == 1;
    } else {
      assert |s1.finished| == 1;
    }
  }

  lemma {:induction false} ChannelsHold(files: nat, reducers: nat, acts: seq<Action>)
    ensures ChannelsOk(Run(files, reducers, acts))
  {
    if acts != [] {
      var s, a := Run(files, reducers, acts[..|acts| - 1]), acts[|acts| - 1];
      ChannelsHold(files, reducers, acts[..|acts| - 1]);
      if Enabled(s, a) {
        if a.Meet? { MeetingStep(s, a); } else { RoomyStep(s, a); }
      }
    }
  }

  // ---------------------------------------------------------------- work left

  function HeldWork(h: Held): nat {
    match h
    case Nothing => 0
    case ToFinished(_) => 2
    case ToTasks(_) => 8
  }

  /** How far the tasks are from being accepted, and how many completions wait. */
  function WorkLeft(s: State): int {
    9 * UnsentSize(s) + 7 * |s.tasks| + 6 * |s.assigning| + 5 * |s.pendingCh| + 4 * |s.pending|
    + HeldWork(s.held) + |s.finished| + |s.completed|
  }

  /** Nothing is on its way but tasks that workers have. */
  predicate Idle(s: State) {
    && s.tasks == [] && s.assigning == map[] && s.pendingCh == [] && s.held == Nothing
    && s.finished == [] && s.completed == [] && !s.phase.PushMaps? && !s.phase.PushReduces?
  }

  /** The action is a completion by a worker, alone or met by the controller. */
  predicate Signals(a: Action) {
    a.Signal? || (a.Meet? && a.send.Signal?)
  }

  lemma WorkNatural(s: State)
    requires PhaseOk(s)
    ensures WorkLeft(s) >= 0
  {
  }

  // The steps that bring a task nearer to acceptance.

  lemma PushLess(s: State)
    requires PhaseOk(s) && (s.phase.PushMaps? || s.phase.PushReduces?)
    ensures WorkLeft(DoPush(s)) < WorkLeft(s)
  {
  }

  lemma ReceiveLess(s: State)
    requires UuidsOk(s) && s.tasks != []
    ensures WorkLeft(DoReceive(s)) < WorkLeft(s)
  {
    InsertSize(s.assigning, s.autoinc, s.tasks[0]);
  }

  lemma AnnounceLess(s: State, u: nat)
    requires u in s.assigning
    ensures WorkLeft(DoAnnounce(s, u)) < WorkLeft(s)
  {
    RemoveSize(s.assigning, u);
  }

  lemma TakePendingLess(s: State)
    requires UuidsOk(s) && s.pendingCh != []
    ensures WorkLeft(DoTakePending(s)) < WorkLeft(s)
  {
    InsertSize(s.pending, s.pendingCh[0].uuid, s.pendingCh[0].task);
  }

  lemma TakeKnownLess(s: State, u: nat)
    requires s.held.Nothing? && s.completed != [] && u == s.completed[0] && u in s.pending
    ensures WorkLeft(DoTakeCompleted(s)) == WorkLeft(s) - 3
  {
    var t := s.(completed := s.completed[1..], pending := s.pending - {u}, held := ToFinished(s.pending[u]));
    assert DoTakeCompleted(s) == t;
    RemoveSize(s.pending, u);
    assert UnsentSize(t) == UnsentSize(s) && |t.completed| == |s.completed| - 1;
  }

  lemma TakeUnknownLess(s: State)
    requires s.completed != [] && s.completed[0] !in s.pending
    ensures WorkLeft(DoTakeCompleted(s)) == WorkLeft(s) - 1
  {
    var t := s.(completed := s.completed[1..]);
    assert DoTakeCompleted(s) == t;
    assert UnsentSize(t) == UnsentSize(s) && |t.completed| == |s.completed| - 1;
  }

  lemma TakeCompletedLess(s: State)
    requires s.held.Nothing? && s.completed != []
    ensures WorkLeft(DoTakeCompleted(s)) == WorkLeft(s) - if s.completed[0] in s.pending then 3 else 1
  {
    if s.completed[0] in s.pending { TakeKnownLess(s, s.completed[0]); } else { TakeUnknownLess(s); }
  }

  lemma SendLess(s: State)
    requires !s.held.Nothing?
    ensures WorkLeft(DoSend(s)) < WorkLeft(s)
  {
  }

  lemma CollectLess(s: State)
    requires PhaseOk(s) && s.finished != [] && (s.phase.AwaitMaps? || s.phase.AwaitReduces?)
    ensures WorkLeft(DoCollect(s)) < WorkLeft(s)
  {
  }

  lemma ReadyLess(s: State, a: Action)
    requires PhaseOk(s) && UuidsOk(s) && Ready(s, a) && !a.Signal? && !a.Expire?
    ensures WorkLeft(Step(s, a)) < WorkLeft(s)
  {
    match a
    case Push => PushLess(s);
    case Receive => ReceiveLess(s);
    case Announce(u) => AnnounceLess(s, u);
    case TakePending => TakePendingLess(s);
    case TakeCompleted => TakeCompletedLess(s);
    case Send => SendLess(s);
    case Collect => CollectLess(s);
  }

  /** An action that is no completion and leaves less work. */
  ghost predicate Forward(s: State, a: Action) {
    Enabled(s, a) && !Signals(a) && WorkLeft(Do(s, a)) < WorkLeft(s)
  }

  lemma SimpleForward(s: State, a: Action)
    requires Inv(s) && Ready(s, a) && HasRoom(s, a) && !a.Signal? && !a.Expire?
    ensures Forward(s, a)
  {
    ReadyLess(s, a);
  }

  lemma MeetingForward(s: State, send: Action, recv: Action)
    requires Inv(s) && s.files == 0 && Ready(s, send) && Partners(s, send, recv) && Ready(Step(s, send), recv)
    requires !send.Signal?
    ensures Forward(s, Meet(send, recv))
  {
    ReadyLess(s, send);
    InvReady(s, send);
    ReadyLess(Step(s, send), recv);
  }

  /** With buffers: whatever is on its way can move, or what is in front of it can. */
  lemma BufferedForward(s: State) returns (a: Action)
    requires Inv(s) && ChannelsOk(s) && s.files > 0 && s.phase != AllDone && !Idle(s)
    ensures Forward(s, a)
  {
    if s.tasks != [] {
      a := Receive;
    } else if s.phase.PushMaps? || s.phase.PushReduces? {
      a := Push;
    } else if s.finished != [] {
      a := Collect;
    } else if !s.held.Nothing? {
      a := Send;
    } else if s.pendingCh != [] {
      a := TakePending;
    } else if s.assigning != map[] {
      assert s.assigning.Keys != {};
      a := Announce(Pick(s.assigning.Keys));
    } else {
      a := TakeCompleted;
    }
    SimpleForward(s, a);
  }

  /** Without buffers: a send meets its receive. */
  lemma UnbufferedForward(s: State) returns (a: Action)
    requires Inv(s) && ChannelsOk(s) && s.files == 0 && s.phase != AllDone && !Idle(s)
    ensures Forward(s, a)
  {
    var send, recv;
    if s.phase.PushMaps? || s.phase.PushReduces? {
      send, recv := Push, Receive;
    } else if s.held.ToFinished? {
      send, recv := Send, Collect;
    } else if s.held.ToTasks? {
      send, recv := Send, Receive;
    } else {
      assert s.assigning.Keys != {};
      send, recv := Announce(Pick(s.assigning.Keys)), TakePending;
    }
    a := Meet(send, recv);
    MeetingForward(s, send, recv);
  }

  lemma AnyForward(s: State) returns (a: Action)
    requires Inv(s) && ChannelsOk(s) && s.phase != AllDone && !Idle(s)
    ensures Forward(s, a)
  {
    if s.files > 0 { a := BufferedForward(s); } else { a := UnbufferedForward(s); }
  }

  /** When all is idle and the job not done, a worker has a task. */
  lemma IdleHasPending(s: State)
    requires Inv(s) && Idle(s) && s.phase != AllDone
    ensures s.pending.Keys != {}
  {
    assert |s.pending| == |s.pending.Keys|;
    assert CirculatingSize(s) == |s.pending|;
  }

  /** The completion of `u` as it happens in state `s`. */
  function Completion(s: State, u: nat): Action {
    if s.files > 0 then Signal(u) else Meet(Signal(u), TakeCompleted)
  }

  /** What the controller then does: take it, unless it has. */
  function Taken(s: State): State {
    if s.files > 0 then Do(s, TakeCompleted) else s
  }

  lemma BufferedCompletion(s: State, u: nat)
    requires Idle(s) && u in s.pending && s.files > 0
    ensures var s1 := s.(completed := [u]);
            && Do(s, Signal(u)) == s1 && Do(s1, TakeCompleted) == DoTakeCompleted(s1)
            && DoTakeCompleted(s1).held == ToFinished(s.pending[u]) && WorkLeft(DoTakeCompleted(s1)) < WorkLeft(s)
  {
    var s1 := s.(completed := [u]);
    assert Step(s, Signal(u)) == s1;
    TakeCompletedLess(s1);
  }

  lemma UnbufferedCompletion(s: State, u: nat)
    requires Idle(s) && u in s.pending && s.files == 0
    ensures var a, s1 := Meet(Signal(u), TakeCompleted), s.(completed := [u]);
            && Do(s, a) == DoTakeCompleted(s1)
            && DoTakeCompleted(s1).held == ToFinished(s.pending[u]) && WorkLeft(DoTakeCompleted(s1)) < WorkLeft(s)
  {
    var s1 := s.(completed := [u]);
    assert Step(s, Signal(u)) == s1;
    TakeCompletedLess(s1);
  }

  /** After the completion and, with buffers, the controller's step. */
  lemma CompletionForward(s: State, u: nat)
    requires Idle(s) && u in s.pending
    ensures var t := Taken(Do(s, Completion(s, u)));
            WorkLeft(t) < WorkLeft(s) && t.held == ToFinished(s.pending[u]) && Do(s, Completion(s, u)).files == s.files
  {
    if s.files > 0 { BufferedCompletion(s, u); } else { UnbufferedCompletion(s, u); }
  }

  // ---------------------------------------------------------------- every run can be finished

  lemma RunExtends(files: nat, reducers: nat, acts: seq<Action>, a: Action)
    ensures Run(files, reducers, acts + [a]) == Do(Run(files, reducers, acts), a)
  {
    var more := acts + [a];
    assert more[..|more| - 1] == acts && more[|more| - 1] == a;
  }

  function WorkBound(s: State): nat {
    if WorkLeft(s) >= 0 then WorkLeft(s) else 0
  }

  /** A continuation that leaves less work. */
  lemma Nearer(files: nat, reducers: nat, acts: seq<Action>) returns (more: seq<Action>)
    requires Run(files, reducers, acts).phase != AllDone
    ensures WorkBound(Run(files, reducers, acts + more)) < WorkBound(Run(files, reducers, acts))
  {
    var s := Run(files, reducers, acts);
    InvHolds(files, reducers, acts);
    if !Idle(s) {
      ChannelsHold(files, reducers, acts);
      var a := AnyForward(s);
      more := [a];
      RunExtends(files, reducers, acts, a);
    } else {
      IdleHasPending(s);
      more := CompletedNext(files, reducers, acts, Pick(s.pending.Keys));
    }
    InvHolds(files, reducers, acts + more);
    WorkNatural(Run(files, reducers, acts + more));
  }

  lemma CompletedNext(files: nat, reducers: nat, acts: seq<Action>, u: nat) returns (more: seq<Action>)
    requires var s := Run(files, reducers, acts); Idle(s) && u in s.pending
    ensures Run(files, reducers, acts + more) == Taken(Do(Run(files, reducers, acts), Completion(Run(files, reducers, acts), u)))
    ensures WorkLeft(Run(files, reducers, acts + more)) < WorkLeft(Run(files, reducers, acts))
  {
    var s := Run(files, reducers, acts);
    var c := Completion(s, u);
    CompletionForward(s, u);
    RunExtends(files, reducers, acts, c);
    if s.files > 0 {
      RunExtends(files, reducers, acts + [c], TakeCompleted);
      more := [c, TakeCompleted];
      assert acts + [c] + [TakeCompleted] == acts + more;
    } else {
      more := [c];
    }
  }

  lemma Associate(a: seq<Action>, b: seq<Action>, c: seq<Action>)
    ensures (a + b) + c == a + (b + c)
  {
  }

  /** After any run, for any number of files and reduce tasks and however many sends are blocked,
      some continuation ends with the coordinator done. */
  lemma {:induction false} CanAlwaysFinish(files: nat, reducers: nat, acts: seq<Action>) returns (more: seq<Action>)
    ensures Run(files, reducers, acts + more).phase == AllDone
    decreases WorkBound(Run(files, reducers, acts))
  {
    if Run(files, reducers, acts).phase == AllDone {
      more := [];
      assert acts + [] == acts;
    } else {
      var first := Nearer(files, reducers, acts);
      var rest := CanAlwaysFinish(files, reducers, acts + first);
      more := first + rest;
      Associate(acts, first, rest);
    }
  }

  // ---------------------------------------------------------------- tasks in order

  /** Task number `k` of the job: the map tasks, then the reduce tasks. */
  function Nth(files: nat, k: nat): Task {
    if k < files then MapTask(k) else ReduceTask(k - files)
  }

  /** How many tasks the `run` goroutine has sent. */
  function Sent(s: State): nat {
    match s.phase
    case PushMaps(i) => i
    case AwaitMaps(_) => s.files
    case PushReduces(i) => s.files + i
    case _ => s.files + s.reducers
  }

  /** The uuid of a task is its number, and the queue holds the next ones. */
  ghost predicate InOrder(s: State) {
    && !s.held.ToTasks? && |s.tasks| + s.autoinc == Sent(s)
    && (forall j :: 0 <= j < |s.tasks| ==> s.tasks[j] == Nth(s.files, s.autoinc + j))
    && (forall u :: u in s.assigning ==> s.assigning[u] == Nth(s.files, u))
    && (forall u :: u in s.issued ==> s.issued[u] == Nth(s.files, u))
    && (forall u: nat :: u < s.autoinc ==> u in s.assigning || u in s.issued)
  }

  lemma OrderReceive(s: State)
    requires InOrder(s) && s.tasks != []
    ensures InOrder(DoReceive(s))
  {
    assert s.tasks[0] == Nth(s.files, s.autoinc + 0);
  }

  lemma OrderCollect(s: State)
    requires InOrder(s) && PhaseOk(s) && s.finished != [] && (s.phase.AwaitMaps? || s.phase.AwaitReduces?)
    ensures InOrder(DoCollect(s))
  {
    var t := DoCollect(s);
    assert Sent(t) == Sent(s);
  }

  lemma OrderPush(s: State)
    requires InOrder(s) && PhaseOk(s) && (s.phase.PushMaps? || s.phase.PushReduces?)
    ensures InOrder(DoPush(s))
  {
    var x := if s.phase.PushMaps? then MapTask(s.phase.i) else ReduceTask(s.phase.i);
    assert x == Nth(s.files, Sent(s)) && DoPush(s).tasks == s.tasks + [x];
    assert Sent(DoPush(s)) == Sent(s) + 1;
  }

  lemma OrderAnnounce(s: State, u: nat)
    requires InOrder(s) && u in s.assigning
    ensures InOrder(DoAnnounce(s, u))
  {
  }

  /** The controller does not touch the queue or the numbers. */
  lemma OrderController(s: State, a: Action)
    requires InOrder(s) && Ready(s, a) && (a.Signal? || a.TakePending? || a.TakeCompleted? || a.Send?)
    ensures InOrder(Step(s, a))
  {
    var t := Step(s, a);
    assert t.tasks == s.tasks && t.autoinc == s.autoinc && t.assigning == s.assigning && t.issued == s.issued;
    assert t.phase == s.phase && t.files == s.files && t.reducers == s.reducers && !t.held.ToTasks?;
  }

  lemma OrderStep(s: State, a: Action)
    requires InOrder(s) && PhaseOk(s) && Ready(s, a) && !a.Expire?
    ensures InOrder(Step(s, a))
  {
    match a
    case Push => OrderPush(s);
    case Receive => OrderReceive(s);
    case Announce(u) => OrderAnnounce(s, u);
    case Collect => OrderCollect(s);
    case _ => OrderController(s, a);
  }

  predicate NoExpiry(acts: seq<Action>) {
    forall i :: 0 <= i < |acts| ==> !acts[i].Expire?
  }

  lemma {:induction false} OrderHolds(files: nat, reducers: nat, acts: seq<Action>)
    requires NoExpiry(acts)
    ensures InOrder(Run(files, reducers, acts)) && Run(files, reducers, acts).files == files
  {
    InvHolds(files, reducers, acts);
    if acts != [] {
      var s, a := Run(files, reducers, acts[..|acts| - 1]), acts[|acts| - 1];
      OrderHolds(files, reducers, acts[..|acts| - 1]);
      InvHolds(files, reducers, acts[..|acts| - 1]);
      if Enabled(s, a) {
        if a.Meet? {
          InvReady(s, a.send);
          OrderStep(s, a.send);
          OrderStep(Step(s, a.send), a.recv);
        } else {
          OrderStep(s, a);
        }
      }
    }
  }

  lemma DoneIsQuiet(s: State)
    requires PhaseOk(s) && Conserved(s) && s.phase == AllDone
    ensures s.tasks == [] && s.assigning.Keys == {}
  {
    assert |s.assigning| == |s.assigning.Keys|;
    assert CirculatingSize(s) == 0;
  }

  /** In every run in which no task times out, tasks are handed out in order, each once: uuid `u`
      names map task `u`, and from the number of files on the reduce tasks in turn. */
  lemma {:induction false} TasksInOrder(files: nat, reducers: nat, acts: seq<Action>, u: nat)
    requires NoExpiry(acts)
    ensures var s := Run(files, reducers, acts);
            && (u in s.issued ==> s.issued[u] == if u < files then MapTask(u) else ReduceTask(u - files))
            && (s.phase == AllDone ==> (u in s.issued <==> u < files + reducers))
  {
    var s := Run(files, reducers, acts);
    OrderHolds(files, reducers, acts);
    if s.phase == AllDone {
      InvHolds(files, reducers, acts);
      DoneIsQuiet(s);
    }
  }
}
