/** The data transformation of MapReduce: partitioning by hash, grouping by key, and the
    sequential sort-and-scan program that it must agree with. */
module MrData {

  datatype KeyValue = KeyValue(key: string, val: string)

  /** One line of output, before it is printed. */
  datatype Line = Line(key: string, out: string)

  function Text(l: Line): string {
    l.key + " " + l.out + "\n"
  }

  /** The values of a key, in order. */
  function Values(ps: seq<KeyValue>, k: string): seq<string> {
    if ps == [] then [] else
    var p := ps[|ps| - 1];
    Values(ps[..|ps| - 1], k) + if p.key == k then [p.val] else []
  }

  /** The reduce task of a key; `hash` is the source's `ihash`. */
  function Place(hash: string -> nat, n: nat, k: string): nat
    requires n > 0
  {
    hash(k) % n
  }

  /** The pairs meant for reduce task `r`, in order. */
  function Bucket(ps: seq<KeyValue>, hash: string -> nat, n: nat, r: nat): seq<KeyValue>
    requires n > 0
  {
    if ps == [] then [] else
    var p := ps[|ps| - 1];
    Bucket(ps[..|ps| - 1], hash, n, r) + if Place(hash, n, p.key) == r then [p] else []
  }

  /** The reduce function does not look at the order of its values. */
  ghost predicate OrderBlind(f: (string, seq<string>) -> string) {
    forall k, vs, ws :: multiset(vs) == multiset(ws) ==> f(k, vs) == f(k, ws)
  }

  /** `lines` are what reducing the pairs must produce, in some order: one line for each key
      that occurs, with the reduction of all its values. */
  ghost predicate Reduces(lines: seq<Line>, ps: seq<KeyValue>, f: (string, seq<string>) -> string) {
    && (forall i, j :: 0 <= i < j < |lines| ==> lines[i].key != lines[j].key)
    && (forall i :: 0 <= i < |lines| ==>
          Values(ps, lines[i].key) != [] && lines[i].out == f(lines[i].key, Values(ps, lines[i].key)))
    && (forall k :: Values(ps, k) != [] ==> HasLine(lines, k))
  }

  predicate HasLine(lines: seq<Line>, k: string) {
    exists i :: 0 <= i < |lines| && lines[i].key == k
  }

  // ---------------------------------------------------------------- facts about values and buckets

  lemma {:induction false} ValuesCount(ps: seq<KeyValue>, k: string, v: string)
    ensures multiset(Values(ps, k))[v] == multiset(ps)[KeyValue(k, v)]
  {
    if ps != [] {
      var init, p := ps[..|ps| - 1], ps[|ps| - 1];
      ValuesCount(init, k, v);
      assert ps == init + [p];
    }
  }

  lemma ValuesPermute(ps: seq<KeyValue>, qs: seq<KeyValue>, k: string)
    requires multiset(ps) == multiset(qs)
    ensures multiset(Values(ps, k)) == multiset(Values(qs, k))
    ensures Values(ps, k) == [] <==> Values(qs, k) == []
  {
    forall v ensures multiset(Values(ps, k))[v] == multiset(Values(qs, k))[v] {
      ValuesCount(ps, k, v);
      ValuesCount(qs, k, v);
    }
    assert |multiset(Values(ps, k))| == |Values(ps, k)| && |multiset(Values(qs, k))| == |Values(qs, k)|;
  }

  lemma {:induction false} ValuesConcat(ps: seq<KeyValue>, qs: seq<KeyValue>, k: string)
    ensures Values(ps + qs, k) == Values(ps, k) + Values(qs, k)
  {
    if qs == [] {
      assert ps + qs == ps;
    } else {
      var s, init, q := ps + qs, qs[..|qs| - 1], qs[|qs| - 1];
      ValuesConcat(ps, init, k);
      assert s[..|s| - 1] == ps + init && s[|s| - 1] == q;
      var x := if q.key == k then [q.val] else [];
      assert Values(s, k) == (Values(ps, k) + Values(init, k)) + x;
      assert Values(qs, k) == Values(init, k) + x;
    }
  }

  lemma {:induction false} BucketCount(ps: seq<KeyValue>, hash: string -> nat, n: nat, r: nat, p: KeyValue)
    requires n > 0
    ensures multiset(Bucket(ps, hash, n, r))[p] == if Place(hash, n, p.key) == r then multiset(ps)[p] else 0
  {
    if ps != [] {
      var init, q := ps[..|ps| - 1], ps[|ps| - 1];
      BucketCount(init, hash, n, r, p);
      assert ps == init + [q];
    }
  }

  lemma {:induction false} BucketPermute(ps: seq<KeyValue>, qs: seq<KeyValue>, hash: string -> nat, n: nat, r: nat)
    requires n > 0 && multiset(ps) == multiset(qs)
    ensures multiset(Bucket(ps, hash, n, r)) == multiset(Bucket(qs, hash, n, r))
  {
    forall p ensures multiset(Bucket(ps, hash, n, r))[p] == multiset(Bucket(qs, hash, n, r))[p] {
      BucketCount(ps, hash, n, r, p);
      BucketCount(qs, hash, n, r, p);
    }
  }

  lemma {:induction false} BucketConcat(ps: seq<KeyValue>, qs: seq<KeyValue>, hash: string -> nat, n: nat, r: nat)
    requires n > 0
    ensures Bucket(ps + qs, hash, n, r) == Bucket(ps, hash, n, r) + Bucket(qs, hash, n, r)
  {
    if qs == [] {
      assert ps + qs == ps;
    } else {
      BucketConcat(ps, qs[..|qs| - 1], hash, n, r);
      assert (ps + qs)[..|ps + qs| - 1] == ps + qs[..|qs| - 1];
    }
  }

  /** A bucket holds all values of its keys, and nothing of other keys. */
  lemma {:induction false} BucketValues(ps: seq<KeyValue>, hash: string -> nat, n: nat, r: nat, k: string)
    requires n > 0
    ensures Values(Bucket(ps, hash, n, r), k) == if Place(hash, n, k) == r then Values(ps, k) else []
  {
    if ps != [] {
      var init, p := ps[..|ps| - 1], ps[|ps| - 1];
      BucketValues(init, hash, n, r, k);
      if Place(hash, n, p.key) == r {
        ValuesConcat(Bucket(init, hash, n, r), [p], k);
        assert Values([p], k) == if p.key == k then [p.val] else [];
      } else {
        assert Bucket(ps, hash, n, r) == Bucket(init, hash, n, r);
      }
    }
  }

  // ---------------------------------------------------------------- what a reduction is determined by

  /** The pairs' order does not matter. */
  lemma ReducesPermute(lines: seq<Line>, ps: seq<KeyValue>, qs: seq<KeyValue>, f: (string, seq<string>) -> string)
    requires OrderBlind(f) && multiset(ps) == multiset(qs) && Reduces(lines, ps, f)
    ensures Reduces(lines, qs, f)
  {
    forall k ensures multiset(Values(ps, k)) == multiset(Values(qs, k)) && (Values(ps, k) == [] <==> Values(qs, k) == []) {
      ValuesPermute(ps, qs, k);
    }
  }

  lemma {:induction false} CountDistinct(lines: seq<Line>, x: Line)
    requires forall i, j :: 0 <= i < j < |lines| ==> lines[i].key != lines[j].key
    ensures multiset(lines)[x] == if x in lines then 1 else 0
  {
    if lines != [] {
      var init, l := lines[..|lines| - 1], lines[|lines| - 1];
      CountDistinct(init, x);
      assert lines == init + [l];
      if x in init { assert x != l; }
    }
  }

  /** How often a line occurs in a reduction: once or never, decided by the pairs alone. */
  lemma LineCount(lines: seq<Line>, ps: seq<KeyValue>, f: (string, seq<string>) -> string, x: Line)
    requires Reduces(lines, ps, f)
    ensures multiset(lines)[x] == if Values(ps, x.key) != [] && x.out == f(x.key, Values(ps, x.key)) then 1 else 0
  {
    CountDistinct(lines, x);
    if Values(ps, x.key) != [] {
      assert HasLine(lines, x.key);
      var i :| 0 <= i < |lines| && lines[i].key == x.key;
      assert lines[i].out == f(x.key, Values(ps, x.key));
      if x in lines {
        var j :| 0 <= j < |lines| && lines[j] == x;
        assert j == i;
      }
    }
  }

  function Flatten<T>(xs: seq<seq<T>>): seq<T> {
    if xs == [] then [] else Flatten(xs[..|xs| - 1]) + xs[|xs| - 1]
  }

  /** Line by line, the outputs of all reduce tasks together. */
  lemma {:induction false} FlattenCount(outs: seq<seq<Line>>, ps: seq<KeyValue>, hash: string -> nat, n: nat,
                                        f: (string, seq<string>) -> string, x: Line)
    requires |outs| <= n && n > 0 && forall r :: 0 <= r < |outs| ==> Reduces(outs[r], Bucket(ps, hash, n, r), f)
    ensures multiset(Flatten(outs))[x] ==
              if Place(hash, n, x.key) < |outs| && Values(ps, x.key) != [] && x.out == f(x.key, Values(ps, x.key)) then 1 else 0
  {
    if outs != [] {
      var r := |outs| - 1;
      FlattenCount(outs[..r], ps, hash, n, f, x);
      LineCount(outs[r], Bucket(ps, hash, n, r), f, x);
      BucketValues(ps, hash, n, r, x.key);
    }
  }

  /** Partitioning, reducing each bucket and putting the outputs together gives the same lines
      as reducing everything in one place. */
  lemma {:induction false} PartitionedEqualsSequential(outs: seq<seq<Line>>, lines: seq<Line>, ps: seq<KeyValue>,
                                                       hash: string -> nat, n: nat, f: (string, seq<string>) -> string)
    requires |outs| == n > 0 && Reduces(lines, ps, f)
    requires forall r :: 0 <= r < n ==> Reduces(outs[r], Bucket(ps, hash, n, r), f)
    ensures multiset(Flatten(outs)) == multiset(lines)
  {
    forall x ensures multiset(Flatten(outs))[x] == multiset(lines)[x] {
      FlattenCount(outs, ps, hash, n, f, x);
      LineCount(lines, ps, f, x);
    }
  }

  /** A key is in the output of its own reduce task and in no other. */
  lemma KeyInOneOutput(outs: seq<seq<Line>>, ps: seq<KeyValue>, hash: string -> nat, n: nat,
                       f: (string, seq<string>) -> string, r: nat, k: string)
    requires r < |outs| == n && Reduces(outs[r], Bucket(ps, hash, n, r), f)
    ensures HasLine(outs[r], k) <==> Values(ps, k) != [] && r == Place(hash, n, k)
  {
    BucketValues(ps, hash, n, r, k);
  }

  function Texts(lines: seq<Line>): seq<string> {
    if lines == [] then [] else Texts(lines[..|lines| - 1]) + [Text(lines[|lines| - 1])]
  }

  lemma {:induction false} TextsConcat(a: seq<Line>, b: seq<Line>)
    ensures Texts(a + b) == Texts(a) + Texts(b)
  {
    if b == [] {
      assert a + b == a;
    } else {
      TextsConcat(a, b[..|b| - 1]);
      assert (a + b)[..|a + b| - 1] == a + b[..|b| - 1];
    }
  }

  lemma TextsInsert(l: seq<Line>, x: Line, r: seq<Line>)
    ensures multiset(Texts(l + ([x] + r))) == multiset(Texts(l + r)) + multiset{Text(x)}
  {
    TextsConcat(l, r);
    TextsConcat([x], r);
    TextsConcat(l, [x] + r);
    assert Texts([x]) == [Text(x)];
  }

  lemma TakeOut<T>(a: seq<T>, l: seq<T>, x: T, r: seq<T>)
    requires multiset(a + [x]) == multiset(l + ([x] + r))
    ensures multiset(a) == multiset(l + r)
  {
    assert multiset(a) == multiset(a + [x]) - multiset{x};
    assert multiset(l + r) == multiset(l + ([x] + r)) - multiset{x};
  }

  /** The same lines in another order print as the same texts in another order. */
  lemma {:induction false} TextsPermute(a: seq<Line>, b: seq<Line>)
    requires multiset(a) == multiset(b)
    ensures multiset(Texts(a)) == multiset(Texts(b))
  {
    if a == [] {
      assert |multiset(b)| == 0;
    } else {
      var init, x := a[..|a| - 1], a[|a| - 1];
      assert a == init + [x];
      assert x in multiset(b);
      var i :| 0 <= i < |b| && b[i] == x;
      var l, r := b[..i], b[i + 1..];
      assert b == l + ([x] + r);
      TakeOut(init, l, x, r);
      TextsPermute(init, l + r);
      TextsInsert(l, x, r);
    }
  }
}
