/** The sequential specification that histories are checked against, per key. */
module KvModel {
  import opened KvServer

  datatype KvState = KvState(val: Value, ver: nat)

  const INIT := KvState(EMPTY, 0)

  /** The model's own step: a Get is compared on its value only, and a Put never
      reports a missing key. The boolean says whether the output is acceptable. */
  function Step(st: KvState, req: Request, out: Reply): (bool, KvState) {
    match req
    case Get(_) => (out.val == st.val, st)
    case Put(_, v, ver) =>
      if st.ver == ver
      then (out.err == OK || out.err == ErrMaybe, KvState(v, st.ver + 1))
      else (out.err == ErrVersion || out.err == ErrMaybe, st)
  }

  /** A sharper step: a Get must agree on version and error too, and a Put answers
      ErrNoKey exactly when it meets a missing key with a non-zero version. */
  function StrictStep(st: KvState, req: Request, out: Reply): (bool, KvState) {
    match req
    case Get(_) => (out == Reply(st.val, st.ver, if st.ver == 0 then ErrNoKey else OK), st)
    case Put(_, v, ver) =>
      if st.ver == ver then (out.err == OK || out.err == ErrMaybe, KvState(v, st.ver + 1))
      else if st.ver == 0 then (out.err == ErrNoKey || out.err == ErrMaybe, st)
      else (out.err == ErrVersion || out.err == ErrMaybe, st)
  }

  datatype Completion = Completion(out: Reply, at: nat)

  /** One operation of a history: its call time and, once it returned, its output and return time. */
  datatype Op = Op(client: nat, req: Request, invoked: nat, done: Option<Completion>)

  /** An operation together with the instant at which it takes effect. */
  datatype Placed = Placed(op: nat, at: nat)

  /** The output an operation is checked with; an unreturned Put counts as ErrMaybe. */
  function Output(op: Op): Reply {
    if op.done.Some? then op.done.value.out else PutReply(ErrMaybe)
  }

  /** Runs a specification step over the placed operations; None when one is refused. */
  function Accepted(h: seq<Op>, order: seq<Placed>, strict: bool): Option<KvState>
    requires forall i :: 0 <= i < |order| ==> order[i].op < |h|
  {
    if order == [] then Some(INIT) else
    match Accepted(h, order[..|order| - 1], strict)
    case None => None
    case Some(st) =>
      var op := h[order[|order| - 1].op];
      var (ok, st') := if strict then StrictStep(st, op.req, Output(op)) else Step(st, op.req, Output(op));
      if ok then Some(st') else None
  }

  /** Each instant lies inside its operation's call interval, instants are in order, only
      operations on the key and no operation twice, every returned operation is there, and
      of the unreturned ones only Puts. */
  ghost predicate WellPlaced(h: seq<Op>, key: string, order: seq<Placed>) {
    && (forall i :: 0 <= i < |order| ==>
          && order[i].op < |h|
          && var op := h[order[i].op];
          && op.req.key == key
          && op.invoked < order[i].at
          && (op.done.Some? ==> order[i].at < op.done.value.at)
          && (op.done.None? ==> op.req.Put?))
    && (forall i, j :: 0 <= i < j < |order| ==> order[i].at < order[j].at && order[i].op != order[j].op)
    && (forall o :: 0 <= o < |h| && h[o].req.key == key && h[o].done.Some? ==>
          exists i :: 0 <= i < |order| && order[i].op == o)
  }

  ghost predicate Linearizes(h: seq<Op>, key: string, order: seq<Placed>, strict: bool) {
    WellPlaced(h, key, order) && Accepted(h, order, strict).Some?
  }

  ghost predicate Linearizable(h: seq<Op>, key: string, strict: bool) {
    exists order :: Linearizes(h, key, order, strict)
  }

  lemma AcceptedExtends(h: seq<Op>, order: seq<Placed>, p: Placed, st: KvState)
    requires forall i :: 0 <= i < |order| ==> order[i].op < |h|
    requires p.op < |h| && Accepted(h, order, true) == Some(st)
    requires StrictStep(st, h[p.op].req, Output(h[p.op])).0
    ensures Accepted(h, order + [p], true) == Some(StrictStep(st, h[p.op].req, Output(h[p.op])).1)
  {
    assert (order + [p])[..|order|] == order;
  }

  /** A linearization keeps real-time order: what returned before another was called comes first. */
  lemma RealTimeOrder(h: seq<Op>, key: string, order: seq<Placed>, i: nat, j: nat)
    requires WellPlaced(h, key, order) && i < |order| && j < |order|
    requires h[order[i].op].done.Some? && h[order[i].op].done.value.at <= h[order[j].op].invoked
    ensures i < j
  {
  }

  /** On a key where no Put reported a missing key, what the sharper step accepts the model accepts. */
  lemma {:induction false} StrictImpliesModel(h: seq<Op>, order: seq<Placed>)
    requires forall i :: 0 <= i < |order| ==> order[i].op < |h|
    requires forall i :: 0 <= i < |order| ==> h[order[i].op].req.Put? ==> Output(h[order[i].op]).err != ErrNoKey
    requires Accepted(h, order, true).Some?
    ensures Accepted(h, order, false) == Accepted(h, order, true)
  {
    if order != [] {
      StrictImpliesModel(h, order[..|order| - 1]);
    }
  }

  /** The model refuses every order that contains a Put answered with ErrNoKey. */
  lemma {:induction false} ModelRefusesNoKey(h: seq<Op>, order: seq<Placed>, i: nat)
    requires forall j :: 0 <= j < |order| ==> order[j].op < |h|
    requires i < |order| && h[order[i].op].req.Put? && Output(h[order[i].op]).err == ErrNoKey
    ensures Accepted(h, order, false).None?
  {
    if i < |order| - 1 {
      ModelRefusesNoKey(h, order[..|order| - 1], i);
    }
  }
}
