/** The coordinator: a task scheduler made of channels, RPC handlers, a controller and the
    `run` goroutine, under every interleaving. */
module MrScheduler {
  import opened Sets

  datatype Task = MapTask(n: nat) | ReduceTask(n: nat)

  /** A task handed out under a fresh uuid. */
  datatype Work = Work(task: Task, uuid: nat)

  /** The `run` goroutine: how many tasks it has sent, or taken from `finished`, in its phase. */
  datatype Phase = PushMaps(i: nat) | AwaitMaps(i: nat) | PushReduces(i: nat) | AwaitReduces(i: nat) | AllDone

  /** The controller between two channel operations may hold a task it is about to send. */
  datatype Held = Nothing | ToFinished(task: Task) | ToTasks(task: Task)

  /** `tasks`, `pendingCh`, `completed` and `finished` are the channels, each with room for `files`
      elements (without files they are unbuffered and always empty);
      `assigning` are the RequestWork handlers that took a task and have not yet announced it;
      `pending` is the controller's map. `issued` and `accepted` are history variables: the tasks
      that workers received, and those the `run` goroutine counted as finished. */
  datatype State = State(
    files: nat, reducers: nat, phase: Phase, tasks: seq<Task>, assigning: map<nat, Task>, pendingCh: seq<Work>,
    pending: map<nat, Task>, completed: seq<nat>, held: Held, finished: seq<Task>, autoinc: nat,
    issued: map<nat, Task>, accepted: seq<Task>)

  datatype Action =
    | Push
    | Receive
    | Announce(uuid: nat)
    | Signal(uuid: nat)
    | TakePending
    | TakeCompleted
    | Expire(uuid: nat)
    | Send
    | Collect
    | Meet(send: Action, recv: Action)

  /** Where the `run` goroutine goes on after the map tasks: an empty loop is over at once. */
  function ReducePhase(reducers: nat): Phase {
    if reducers > 0 then PushReduces(0) else AllDone
  }

  function Begin(files: nat, reducers: nat): State {
    State(files, reducers, if files > 0 then PushMaps(0) else ReducePhase(reducers),
          [], map[], [], map[], [], Nothing, [], 0, map[], [])
  }

  /** Whose turn it is, whether or not a send has room. */
  predicate Ready(s: State, a: Action) {
    match a
    case Push => s.phase.PushMaps? || s.phase.PushReduces?
    case Receive => s.tasks != []
    case Announce(u) => u in s.assigning
    case Signal(u) => true
    case TakePending => s.held.Nothing? && s.pendingCh != []
    case TakeCompleted => s.held.Nothing? && s.completed != []
    case Expire(u) => s.held.Nothing? && u in s.pending
    case Send => !s.held.Nothing?
    case Collect => (s.phase.AwaitMaps? || s.phase.AwaitReduces?) && s.finished != []
    case Meet(_, _) => false
  }

  predicate HasRoom(s: State, a: Action) {
    match a
    case Push => |s.tasks| < s.files
    case Announce(u) => |s.pendingCh| < s.files
    case Signal(u) => |s.completed| < s.files
    case Send => (if s.held.ToFinished? then |s.finished| else |s.tasks|) < s.files
    case _ => true
  }

  /** Both ends of one channel. */
  predicate Partners(s: State, send: Action, recv: Action) {
    || ((send.Push? || (send.Send? && s.held.ToTasks?)) && recv.Receive?)
    || (send.Announce? && recv.TakePending?)
    || (send.Signal? && recv.TakeCompleted?)
    || (send.Send? && s.held.ToFinished? && recv.Collect?)
  }

  /** On an unbuffered channel a send happens together with its receive. */
  predicate Enabled(s: State, a: Action) {
    if a.Meet?
    then s.files == 0 && Ready(s, a.send) && Partners(s, a.send, a.recv) && Ready(Step(s, a.send), a.recv)
    else Ready(s, a) && HasRoom(s, a)
  }

  function DoPush(s: State): State {
    match s.phase
    case PushMaps(i) =>
      s.(tasks := s.tasks + [MapTask(i)], phase := if i + 1 >= s.files then AwaitMaps(0) else PushMaps(i + 1))
    case PushReduces(i) =>
      s.(tasks := s.tasks + [ReduceTask(i)], phase := if i + 1 >= s.reducers then AwaitReduces(0) else PushReduces(i + 1))
    case _ => s
  }

  function DoReceive(s: State): State
    requires s.tasks != []
  {
    s.(tasks := s.tasks[1..], assigning := s.assigning[s.autoinc := s.tasks[0]], autoinc := s.autoinc + 1)
  }

  /** The handler tells the controller, and its reply reaches the worker. */
  function DoAnnounce(s: State, u: nat): State
    requires u in s.assigning
  {
    var t := s.assigning[u];
    s.(assigning := s.assigning - {u}, pendingCh := s.pendingCh + [Work(t, u)], issued := s.issued[u := t])
  }

  function DoTakePending(s: State): State
    requires s.pendingCh != []
  {
    var w := s.pendingCh[0];
    s.(pendingCh := s.pendingCh[1..], pending := s.pending[w.uuid := w.task])
  }

  /** An unknown, early or late completion is ignored. */
  function DoTakeCompleted(s: State): State
    requires s.completed != []
  {
    var u := s.completed[0];
    if u in s.pending
    then s.(completed := s.completed[1..], pending := s.pending - {u}, held := ToFinished(s.pending[u]))
    else s.(completed := s.completed[1..])
  }

  function DoExpire(s: State, u: nat): State
    requires u in s.pending
  {
    s.(pending := s.pending - {u}, held := ToTasks(s.pending[u]))
  }

  function DoSend(s: State): State
    requires !s.held.Nothing?
  {
    if s.held.ToFinished? then s.(finished := s.finished + [s.held.task], held := Nothing)
    else s.(tasks := s.tasks + [s.held.task], held := Nothing)
  }

  function DoCollect(s: State): State
    requires s.finished != []
  {
    s.(finished := s.finished[1..],
       accepted := s.accepted + [s.finished[0]],
       phase := match s.phase
         case AwaitMaps(i) => if i + 1 >= s.files then ReducePhase(s.reducers) else AwaitMaps(i + 1)
         case AwaitReduces(i) => if i + 1 >= s.reducers then AllDone else AwaitReduces(i + 1)
         case p => p)
  }

  function Step(s: State, a: Action): State
    requires Ready(s, a)
  {
    match a
    case Push => DoPush(s)
    case Receive => DoReceive(s)
    case Announce(u) => DoAnnounce(s, u)
    case Signal(u) => s.(completed := s.completed + [u])
    case TakePending => DoTakePending(s)
    case TakeCompleted => DoTakeCompleted(s)
    case Expire(u) => DoExpire(s, u)
    case Send => DoSend(s)
    case Collect => DoCollect(s)
  }

  function Do(s: State, a: Action): State {
    if !Enabled(s, a) then s
    else if a.Meet? then Step(Step(s, a.send), a.recv)
    else Step(s, a)
  }

  function Run(files: nat, reducers: nat, acts: seq<Action>): State {
    if acts == [] then Begin(files, reducers) else Do(Run(files, reducers, acts[..|acts| - 1]), acts[|acts| - 1])
  }

  // ---------------------------------------------------------------- where tasks are

  /** How often a task occurs in a channel, and among the values of a map. */
  function InSeq(xs: seq<Task>, t: Task): nat {
    multiset(xs)[t]
  }

  function InWorks(ws: seq<Work>, t: Task): nat {
    if ws == [] then 0 else InWorks(ws[1..], t) + if ws[0].task == t then 1 else 0
  }

  ghost function InMap(m: map<nat, Task>, t: Task): nat
    decreases m.Keys
  {
    if m.Keys == {} then 0 else
    var u := Pick(m.Keys);
    InMap(m - {u}, t) + if m[u] == t then 1 else 0
  }

  function InHeld(h: Held, t: Task): nat {
    if !h.Nothing? && h.task == t then 1 else 0
  }

  /** Whether the `run` goroutine has still to send the task. */
  function Unsent(s: State, t: Task): nat {
    match s.phase
    case PushMaps(i) => if t.MapTask? then (if i <= t.n < s.files then 1 else 0) else if t.n < s.reducers then 1 else 0
    case AwaitMaps(_) => if t.ReduceTask? && t.n < s.reducers then 1 else 0
    case PushReduces(i) => if t.ReduceTask? && i <= t.n < s.reducers then 1 else 0
    case _ => 0
  }

  /** How often a task is between being sent and being accepted. */
  ghost function Circulating(s: State, t: Task): nat {
    InSeq(s.tasks, t) + InMap(s.assigning, t) + InWorks(s.pendingCh, t) + InMap(s.pending, t)
    + InHeld(s.held, t) + InSeq(s.finished, t)
  }

  /** How often a task occurs anywhere. */
  ghost function Occurrences(s: State, t: Task): nat {
    Unsent(s, t) + Circulating(s, t) + InSeq(s.accepted, t)
  }

  /** The tasks of the job. */
  predicate IsTask(s: State, t: Task) {
    t.n < if t.MapTask? then s.files else s.reducers
  }

  // The same for sizes.

  function UnsentSize(s: State): int {
    match s.phase
    case PushMaps(i) => s.files - i + s.reducers
    case AwaitMaps(_) => s.reducers
    case PushReduces(i) => s.reducers - i
    case _ => 0
  }

  function CirculatingSize(s: State): nat {
    |s.tasks| + |s.assigning| + |s.pendingCh| + |s.pending| + (if s.held.Nothing? then 0 else 1) + |s.finished|
  }

  predicate Late(p: Phase) {
    p.PushReduces? || p.AwaitReduces? || p.AllDone?
  }

  ghost predicate PhaseOk(s: State) {
    match s.phase
    case PushMaps(i) => i < s.files && s.accepted == []
    case AwaitMaps(i) => i < s.files && |s.accepted| == i
    case PushReduces(i) => i < s.reducers && |s.accepted| == s.files
    case AwaitReduces(i) => i < s.reducers && |s.accepted| == s.files + i
    case AllDone => |s.accepted| == s.files + s.reducers
  }

  /** Uuids are used once, and name the issued task. */
  ghost predicate UuidsOk(s: State) {
    && (forall u :: u in s.assigning || u in s.pending || u in s.issued ==> u < s.autoinc)
    && (forall u :: u in s.assigning ==> u !in s.issued)
    && (forall u :: u in s.pending ==> u in s.issued && s.issued[u] == s.pending[u])
    && (forall i :: 0 <= i < |s.pendingCh| ==>
          var w := s.pendingCh[i]; w.uuid in s.issued && s.issued[w.uuid] == w.task && w.uuid !in s.pending)
    && (forall i, j :: 0 <= i < j < |s.pendingCh| ==> s.pendingCh[i].uuid != s.pendingCh[j].uuid)
  }

  ghost predicate Conserved(s: State) {
    && UnsentSize(s) + CirculatingSize(s) + |s.accepted| == s.files + s.reducers
    && (forall t :: Occurrences(s, t) == if IsTask(s, t) then 1 else 0)
  }

  ghost predicate MapsAccepted(s: State) {
    forall n: nat :: n < s.files ==> MapTask(n) in s.accepted
  }

  ghost predicate Inv(s: State) {
    && PhaseOk(s) && UuidsOk(s) && Conserved(s)
    && LateOk(s)
  }

  // ---------------------------------------------------------------- every step conserves tasks

  lemma {:induction false} InMapRemove(m: map<nat, Task>, u: nat, t: Task)
    requires u in m
    ensures InMap(m, t) == InMap(m - {u}, t) + if m[u] == t then 1 else 0
    decreases m.Keys
  {
    var v := Pick(m.Keys);
    if v != u {
      var mu, mv := m - {u}, m - {v};
      assert mv - {u} == mu - {v};
      InMapRemove(mv, u, t);
      InMapRemove(mu, v, t);
    }
  }

  lemma InMapInsert(m: map<nat, Task>, u: nat, x: Task, t: Task)
    requires u !in m
    ensures InMap(m[u := x], t) == InMap(m, t) + if x == t then 1 else 0
  {
    InMapRemove(m[u := x], u, t);
    assert m[u := x] - {u} == m;
  }

  lemma InSeqMore(xs: seq<Task>, x: Task, t: Task)
    ensures InSeq(xs + [x], t) == InSeq(xs, t) + if x == t then 1 else 0
  {
  }

  lemma InSeqLess(xs: seq<Task>, t: Task)
    requires xs != []
    ensures InSeq(xs, t) == InSeq(xs[1..], t) + if xs[0] == t then 1 else 0
  {
    assert xs == [xs[0]] + xs[1..];
  }

  lemma {:induction false} InWorksMore(ws: seq<Work>, w: Work, t: Task)
    ensures InWorks(ws + [w], t) == InWorks(ws, t) + if w.task == t then 1 else 0
  {
    if ws == [] {
      assert ws + [w] == [w] && [w][1..] == [];
    } else {
      InWorksMore(ws[1..], w, t);
      assert (ws + [w])[1..] == ws[1..] + [w];
    }
  }

  // The `run` goroutine moves a task in or out of circulation.

  lemma PushConserves(s: State, t: Task)
    requires PhaseOk(s) && (s.phase.PushMaps? || s.phase.PushReduces?)
    ensures Occurrences(DoPush(s), t) == Occurrences(s, t)
  {
    var x := if s.phase.PushMaps? then MapTask(s.phase.i) else ReduceTask(s.phase.i);
    InSeqMore(s.tasks, x, t);
    assert Unsent(s, t) == Unsent(DoPush(s), t) + if x == t then 1 else 0;
  }

  lemma CollectConserves(s: State, t: Task)
    requires PhaseOk(s) && s.finished != [] && (s.phase.AwaitMaps? || s.phase.AwaitReduces?)
    ensures Occurrences(DoCollect(s), t) == Occurrences(s, t)
  {
    InSeqLess(s.finished, t);
    InSeqMore(s.accepted, s.finished[0], t);
    assert Unsent(s, t) == Unsent(DoCollect(s), t);
  }

  lemma HandlersConserve(s: State, a: Action, t: Task)
    requires UuidsOk(s) && Ready(s, a) && (a.Receive? || a.Announce? || a.Signal?)
    ensures Circulating(Step(s, a), t) == Circulating(s, t)
  {
    match a
    case Receive => InSeqLess(s.tasks, t); InMapInsert(s.assigning, s.autoinc, s.tasks[0], t);
    case Announce(u) => InMapRemove(s.assigning, u, t); InWorksMore(s.pendingCh, Work(s.assigning[u], u), t);
    case _ =>
  }

  lemma ControllerConserves(s: State, a: Action, t: Task)
    requires UuidsOk(s) && Ready(s, a) && (a.TakePending? || a.TakeCompleted? || a.Expire? || a.Send?)
    ensures Circulating(Step(s, a), t) == Circulating(s, t)
  {
    if a.TakePending? {
      InMapInsert(s.pending, s.pendingCh[0].uuid, s.pendingCh[0].task, t);
    } else if a.TakeCompleted? {
      if s.completed[0] in s.pending { InMapRemove(s.pending, s.completed[0], t); }
    } else if a.Expire? {
      InMapRemove(s.pending, a.uuid, t);
    } else {
      InSeqMore(if s.held.ToFinished? then s.finished else s.tasks, s.held.task, t);
    }
  }

  /** No step changes how often a task occurs. */
  lemma StepConserves(s: State, a: Action, t: Task)
    requires PhaseOk(s) && UuidsOk(s) && Ready(s, a)
    ensures Occurrences(Step(s, a), t) == Occurrences(s, t)
  {
    match a
    case Push => PushConserves(s, t);
    case Collect => CollectConserves(s, t);
    case Receive => HandlersConserve(s, a, t);
    case Announce(u) => HandlersConserve(s, a, t);
    case Signal(u) => HandlersConserve(s, a, t);
    case _ => ControllerConserves(s, a, t);
  }

  lemma RunSizes(s: State, a: Action)
    requires PhaseOk(s) && Ready(s, a) && (a.Push? || a.Collect?)
    ensures var t := Step(s, a);
            && PhaseOk(t)
            && UnsentSize(t) + CirculatingSize(t) + |t.accepted| == UnsentSize(s) + CirculatingSize(s) + |s.accepted|
  {
  }

  lemma HandlerSizes(s: State, a: Action)
    requires UuidsOk(s) && Ready(s, a) && (a.Receive? || a.Announce? || a.Signal?)
    ensures CirculatingSize(Step(s, a)) == CirculatingSize(s)
  {
    match a
    case Receive => InsertSize(s.assigning, s.autoinc, s.tasks[0]);
    case Announce(u) => RemoveSize(s.assigning, u);
    case Signal(u) =>
  }

  lemma TakePendingSize(s: State)
    requires UuidsOk(s) && s.pendingCh != []
    ensures CirculatingSize(DoTakePending(s)) == CirculatingSize(s)
  {
    InsertSize(s.pending, s.pendingCh[0].uuid, s.pendingCh[0].task);
  }

  lemma TakeCompletedSize(s: State)
    requires s.held.Nothing? && s.completed != []
    ensures CirculatingSize(DoTakeCompleted(s)) == CirculatingSize(s)
  {
    if s.completed[0] in s.pending { RemoveSize(s.pending, s.completed[0]); }
  }

  lemma ExpireSize(s: State, u: nat)
    requires s.held.Nothing? && u in s.pending
    ensures CirculatingSize(DoExpire(s, u)) == CirculatingSize(s)
  {
    RemoveSize(s.pending, u);
  }

  lemma ControllerSizes(s: State, a: Action)
    requires UuidsOk(s) && Ready(s, a) && (a.TakePending? || a.TakeCompleted? || a.Expire? || a.Send?)
    ensures CirculatingSize(Step(s, a)) == CirculatingSize(s)
  {
    match a
    case TakePending => TakePendingSize(s);
    case TakeCompleted => TakeCompletedSize(s);
    case Expire(u) => ExpireSize(s, u);
    case Send =>
  }

  lemma StepSizes(s: State, a: Action)
    requires PhaseOk(s) && UuidsOk(s) && Ready(s, a)
    ensures var t := Step(s, a);
            && PhaseOk(t) && t.files == s.files && t.reducers == s.reducers
            && UnsentSize(t) + CirculatingSize(t) + |t.accepted| == UnsentSize(s) + CirculatingSize(s) + |s.accepted|
  {
    if a.Push? || a.Collect? {
      RunSizes(s, a);
    } else if a.Receive? || a.Announce? || a.Signal? {
      HandlerSizes(s, a);
    } else {
      ControllerSizes(s, a);
    }
  }

  lemma InsertSize(m: map<nat, Task>, u: nat, t: Task)
    requires u !in m
    ensures |m[u := t]| == |m| + 1
  {
  }

  lemma RemoveSize(m: map<nat, Task>, u: nat)
    requires u in m
    ensures |m - {u}| == |m| - 1
  {
    assert (m - {u}).Keys == m.Keys - {u};
    assert |m - {u}| == |(m - {u}).Keys| && |m| == |m.Keys|;
  }

  lemma UuidsStep(s: State, a: Action)
    requires UuidsOk(s) && Ready(s, a)
    ensures UuidsOk(Step(s, a))
  {
    match a
    case Push =>
    case Receive =>
    case Announce(u) =>
    case Signal(u) =>
    case TakePending =>
    case TakeCompleted =>
    case Expire(u) =>
    case Send =>
    case Collect =>
  }

  /** Before the barrier only map tasks circulate. */
  lemma EarlyOnlyMaps(s: State, t: Task)
    requires Inv(s) && !Late(s.phase) && Circulating(s, t) > 0
    ensures t.MapTask?
  {
    assert Occurrences(s, t) >= Unsent(s, t) + 1;
  }

  /** When nothing circulates, what is sent is accepted. */
  lemma NothingCirculates(s: State, t: Task)
    requires Conserved(s) && CirculatingSize(s) == 0
    ensures Circulating(s, t) == 0 && Unsent(s, t) + InSeq(s.accepted, t) == if IsTask(s, t) then 1 else 0
  {
    assert s.assigning.Keys == {} && s.pending.Keys == {};
    assert Occurrences(s, t) == if IsTask(s, t) then 1 else 0;
  }

  lemma BarrierReached(s: State)
    requires Conserved(s) && s.phase == ReducePhase(s.reducers) && |s.accepted| == s.files
    ensures MapsAccepted(s)
  {
    forall n: nat | n < s.files ensures MapTask(n) in s.accepted { NothingCirculates(s, MapTask(n)); }
  }

  lemma InvReady(s: State, a: Action)
    requires Inv(s) && Ready(s, a)
    ensures Inv(Step(s, a)) && Step(s, a).files == s.files && Step(s, a).reducers == s.reducers
  {
    var t := Step(s, a);
    StepSizes(s, a);
    UuidsStep(s, a);
    forall x ensures Occurrences(t, x) == if IsTask(t, x) then 1 else 0 { StepConserves(s, a, x); }
    match a
    case Collect => CollectLate(s);
    case Announce(u) => LateAnnounce(s, u);
    case _ => LateKept(s, a);
  }

  lemma InvStep(s: State, a: Action)
    requires Inv(s)
    ensures Inv(Do(s, a)) && Do(s, a).files == s.files && Do(s, a).reducers == s.reducers
  {
    if Enabled(s, a) {
      if a.Meet? {
        InvReady(s, a.send);
        InvReady(Step(s, a.send), a.recv);
      } else {
        InvReady(s, a);
      }
    }
  }

  lemma AnnouncedIsTask(s: State, u: nat)
    requires Inv(s) && u in s.assigning
    ensures IsTask(s, s.assigning[u]) && (s.assigning[u].ReduceTask? ==> Late(s.phase))
  {
    var x := s.assigning[u];
    InMapRemove(s.assigning, u, x);
    assert Occurrences(s, x) > 0;
    if !Late(s.phase) { EarlyOnlyMaps(s, x); }
  }

  ghost predicate LateOk(s: State) {
    && (Late(s.phase) ==> MapsAccepted(s))
    && (forall u :: u in s.issued ==> IsTask(s, s.issued[u]) && (s.issued[u].ReduceTask? ==> Late(s.phase)))
  }

  lemma CollectLate(s: State)
    requires LateOk(s) && s.finished != [] && Conserved(DoCollect(s)) && PhaseOk(DoCollect(s))
    ensures LateOk(DoCollect(s))
  {
    if !Late(s.phase) && Late(DoCollect(s).phase) { BarrierReached(DoCollect(s)); }
  }

  lemma LateAnnounce(s: State, u: nat)
    requires Inv(s) && u in s.assigning
    ensures LateOk(DoAnnounce(s, u))
  {
    AnnouncedIsTask(s, u);
  }

  lemma LateKept(s: State, a: Action)
    requires LateOk(s) && Ready(s, a) && !a.Collect? && !a.Announce?
    ensures LateOk(Step(s, a))
  {
    var t := Step(s, a);
    assert t.issued == s.issued && t.accepted == s.accepted && t.files == s.files && t.reducers == s.reducers;
    assert Late(t.phase) == Late(s.phase);
  }

  lemma {:induction false} InvHolds(files: nat, reducers: nat, acts: seq<Action>)
    ensures var s := Run(files, reducers, acts); Inv(s) && s.files == files && s.reducers == reducers
  {
    if acts == [] {
      InvBegin(files, reducers);
    } else {
      InvHolds(files, reducers, acts[..|acts| - 1]);
      InvStep(Run(files, reducers, acts[..|acts| - 1]), acts[|acts| - 1]);
    }
  }

  lemma InvBegin(files: nat, reducers: nat)
    ensures Inv(Begin(files, reducers))
  {
    var s := Begin(files, reducers);
    forall t ensures Occurrences(s, t) == if IsTask(s, t) then 1 else 0 { BeginOccurrences(files, reducers, t); }
  }

  lemma BeginOccurrences(files: nat, reducers: nat, t: Task)
    ensures var s := Begin(files, reducers); Occurrences(s, t) == if IsTask(s, t) then 1 else 0
  {
    var s := Begin(files, reducers);
    assert s.assigning.Keys == {} && s.pending.Keys == {};
    assert Circulating(s, t) == 0;
  }

  // ---------------------------------------------------------------- results

  /** In every run each task is in exactly one place; in particular it is accepted at most once. */
  lemma {:induction false} TaskConservation(files: nat, reducers: nat, acts: seq<Action>, t: Task)
    ensures var s := Run(files, reducers, acts);
            && Occurrences(s, t) == (if t.n < (if t.MapTask? then files else reducers) then 1 else 0)
            && multiset(s.accepted)[t] <= 1
  {
    InvHolds(files, reducers, acts);
    var s := Run(files, reducers, acts);
    assert Conserved(s);
    assert Occurrences(s, t) == if IsTask(s, t) then 1 else 0;
  }

  /** The barrier: once a worker has received a reduce task, or one circulates, every map task
      has been accepted; done is set only after every task has, exactly once. */
  lemma Barrier(files: nat, reducers: nat, acts: seq<Action>, t: Task)
    ensures var s := Run(files, reducers, acts);
            && (forall u :: u in s.issued && s.issued[u].ReduceTask? ==> MapsAccepted(s))
            && (t.ReduceTask? && Circulating(s, t) > 0 ==> MapsAccepted(s))
            && (s.phase == AllDone ==> multiset(s.accepted)[t] == if t.n < (if t.MapTask? then files else reducers) then 1 else 0)
  {
    InvHolds(files, reducers, acts);
    var s := Run(files, reducers, acts);
    if !Late(s.phase) && Circulating(s, t) > 0 { EarlyOnlyMaps(s, t); }
    if s.phase == AllDone { NothingCirculates(s, t); }
  }

  /** Some send would find its channel full. */
  predicate SendBlocks(s: State) {
    || ((s.phase.PushMaps? || s.phase.PushReduces?) && |s.tasks| >= s.files)
    || (s.assigning != map[] && |s.pendingCh| >= s.files)
    || (s.held.ToFinished? && |s.finished| >= s.files)
    || (s.held.ToTasks? && |s.tasks| >= s.files)
  }

  lemma RoomEnough(files: nat, reducers: nat, acts: seq<Action>)
    requires reducers <= files
    ensures !SendBlocks(Run(files, reducers, acts))
  {
    InvHolds(files, reducers, acts);
    var s := Run(files, reducers, acts);
    assert CirculatingSize(s) <= files && (s.phase.PushMaps? || s.phase.PushReduces? ==> CirculatingSize(s) < files);
    if s.assigning != map[] { assert |s.assigning| > 0; }
  }

  ghost predicate NeverBlocks(files: nat, reducers: nat) {
    forall acts :: !SendBlocks(Run(files, reducers, acts))
  }

  /** No send on `tasks`, `pending` or `finished` ever finds its channel full, in any run,
      exactly when there are at least as many files as reduce tasks. */
  lemma CapacityIff(files: nat, reducers: nat)
    ensures NeverBlocks(files, reducers) <==> reducers <= files
  {
    if reducers <= files {
      forall acts ensures !SendBlocks(Run(files, reducers, acts)) { RoomEnough(files, reducers, acts); }
    } else {
      var s := ReducesPushed(files, reducers, files);
      var acts :| Run(files, reducers, acts) == s;
      assert SendBlocks(Run(files, reducers, acts));
    }
  }

  ghost predicate Reachable(s: State) {
    exists acts :: Run(s.files, s.reducers, acts) == s
  }

  lemma StepStaysInJob(s: State, a: Action)
    requires Ready(s, a)
    ensures Step(s, a).files == s.files && Step(s, a).reducers == s.reducers
  {
  }

  lemma StaysInJob(s: State, a: Action)
    ensures Do(s, a).files == s.files && Do(s, a).reducers == s.reducers
  {
    if Enabled(s, a) {
      if a.Meet? {
        StepStaysInJob(s, a.send);
        StepStaysInJob(Step(s, a.send), a.recv);
      } else {
        StepStaysInJob(s, a);
      }
    }
  }

  lemma StepReaches(s: State, a: Action)
    requires Reachable(s)
    ensures Reachable(Do(s, a))
  {
    var acts :| Run(s.files, s.reducers, acts) == s;
    var more := acts + [a];
    assert more[..|more| - 1] == acts && more[|more| - 1] == a;
    var t := Do(s, a);
    assert Run(s.files, s.reducers, more) == t;
    StaysInJob(s, a);
  }

  function MapSeq(lo: nat, hi: nat): seq<Task>
    requires lo <= hi
  {
    seq(hi - lo, i requires 0 <= i < hi - lo => MapTask(lo + i))
  }

  /** Only the `run` goroutine and the task queue are busy. */
  function Quiet(files: nat, reducers: nat, phase: Phase, tasks: seq<Task>, issued: map<nat, Task>, accepted: seq<Task>): State {
    State(files, reducers, phase, tasks, map[], [], map[], [], Nothing, [], |accepted|, issued, accepted)
  }

  lemma {:induction false} MapsPushed(files: nat, reducers: nat, i: nat)
    requires files > 0 && i <= files
    ensures Reachable(Quiet(files, reducers, if i < files then PushMaps(i) else AwaitMaps(0), MapSeq(0, i), map[], []))
  {
    if i == 0 {
      assert Run(files, reducers, []) == Quiet(files, reducers, PushMaps(0), MapSeq(0, 0), map[], []);
    } else {
      MapsPushed(files, reducers, i - 1);
      assert MapSeq(0, i) == MapSeq(0, i - 1) + [MapTask(i - 1)];
      StepReaches(Quiet(files, reducers, PushMaps(i - 1), MapSeq(0, i - 1), map[], []), Push);
    }
  }

  /** A worker takes the first task of the queue and it is finished and accepted at once. */
  lemma OneRound(s: State) returns (t: State)
    requires Reachable(s) && s.files > 0 && s.phase.AwaitMaps? && s.tasks != [] && s.autoinc == |s.accepted|
    requires s == Quiet(s.files, s.reducers, s.phase, s.tasks, s.issued, s.accepted)
    ensures Reachable(t)
    ensures t == Quiet(s.files, s.reducers, if s.phase.i + 1 >= s.files then ReducePhase(s.reducers) else AwaitMaps(s.phase.i + 1),
                       s.tasks[1..], s.issued[s.autoinc := s.tasks[0]], s.accepted + [s.tasks[0]])
  {
    var u, x := s.autoinc, s.tasks[0];
    var s1 := s.(tasks := s.tasks[1..], assigning := map[u := x], autoinc := u + 1);
    assert DoReceive(s) == s1;
    StepReaches(s, Receive);
    var s2 := s1.(assigning := map[], pendingCh := [Work(x, u)], issued := s.issued[u := x]);
    assert s1.assigning - {u} == map[] && DoAnnounce(s1, u) == s2;
    StepReaches(s1, Announce(u));
    t := RoundEnds(s2, x, u);
  }

  lemma RoundEnds(s: State, x: Task, u: nat) returns (t: State)
    requires Reachable(s) && s.files > 0 && s.phase.AwaitMaps? && s.pendingCh == [Work(x, u)]
    requires s.pending == map[] && s.completed == [] && s.held == Nothing && s.finished == []
    ensures Reachable(t)
    ensures t == s.(pendingCh := [], accepted := s.accepted + [x],
                    phase := if s.phase.i + 1 >= s.files then ReducePhase(s.reducers) else AwaitMaps(s.phase.i + 1))
  {
    StepReaches(s, Signal(u));
    var s1 := s.(completed := [u]);
    StepReaches(s1, TakePending);
    var s2 := s1.(pendingCh := [], pending := map[u := x]);
    assert DoTakePending(s1) == s2;
    StepReaches(s2, TakeCompleted);
    var s3 := s2.(completed := [], pending := map[], held := ToFinished(x));
    assert s2.pending - {u} == map[] && DoTakeCompleted(s2) == s3;
    StepReaches(s3, Send);
    var s4 := s3.(held := Nothing, finished := [x]);
    StepReaches(s4, Collect);
    t := DoCollect(s4);
  }

  lemma {:induction false} MapsFinish(files: nat, reducers: nat, k: nat) returns (s: State)
    requires files > 0 && k <= files
    ensures Reachable(s) && |s.accepted| == k
    ensures s == Quiet(files, reducers, if k < files then AwaitMaps(k) else ReducePhase(reducers),
                       MapSeq(k, files), s.issued, s.accepted)
  {
    if k == 0 {
      MapsPushed(files, reducers, files);
      s := Quiet(files, reducers, AwaitMaps(0), MapSeq(0, files), map[], []);
    } else {
      var r := MapsFinish(files, reducers, k - 1);
      s := OneRound(r);
      assert MapSeq(k - 1, files)[1..] == MapSeq(k, files);
    }
  }

  lemma {:induction false} ReducesPushed(files: nat, reducers: nat, j: nat) returns (s: State)
    requires j <= files < reducers
    ensures Reachable(s) && s.files == files && s.reducers == reducers && s.phase == PushReduces(j) && |s.tasks| == j
  {
    if files == 0 {
      s := Begin(files, reducers);
      assert Run(files, reducers, []) == s;
    } else if j == 0 {
      s := MapsFinish(files, reducers, files);
    } else {
      var r := ReducesPushed(files, reducers, j - 1);
      StepReaches(r, Push);
      s := Do(r, Push);
    }
  }
}
