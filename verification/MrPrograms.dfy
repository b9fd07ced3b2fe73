/** The loops of the map worker, the reduce worker and the sequential program. */
module MrPrograms {
  import opened MrNames
  import opened MrData

  // ---------------------------------------------------------------- the sequential program

  predicate Less(a: string, b: string) {
    b != "" && (a == "" || a[0] < b[0] || (a[0] == b[0] && Less(a[1..], b[1..])))
  }

  lemma {:induction false} LessIsTotal(a: string, b: string)
    ensures Less(a, b) || Less(b, a) || a == b
  {
    if a != "" && b != "" && a[0] == b[0] {
      LessIsTotal(a[1..], b[1..]);
      assert a == [a[0]] + a[1..] && b == [b[0]] + b[1..];
    }
  }

  /** What `sort.Sort` by key guarantees: no later key is less than an earlier one. */
  ghost predicate SortedByKey(ps: seq<KeyValue>) {
    forall i, j :: 0 <= i < j < |ps| ==> !Less(ps[j].key, ps[i].key)
  }

  /** In sorted pairs, equal keys are neighbours. */
  lemma Contiguous(ps: seq<KeyValue>, i: nat, j: nat, k: nat)
    requires SortedByKey(ps) && i <= j <= k < |ps| && ps[i].key == ps[k].key
    ensures ps[j].key == ps[i].key
  {
    LessIsTotal(ps[i].key, ps[j].key);
  }

  lemma {:induction false} ValuesOfOne(ps: seq<KeyValue>, k: string)
    ensures (forall i :: 0 <= i < |ps| ==> ps[i].key != k) <==> Values(ps, k) == []
  {
    if ps != [] {
      ValuesOfOne(ps[..|ps| - 1], k);
      var init := ps[..|ps| - 1];
      assert forall i :: 0 <= i < |init| ==> ps[i] == init[i];
    }
  }

  /** The scan over sorted pairs extends the output by one key. */
  lemma ScanGroup(ps: seq<KeyValue>, i: nat, j: nat, lines: seq<Line>, f: (string, seq<string>) -> string)
    requires SortedByKey(ps) && i < j <= |ps|
    requires forall l :: i <= l < j ==> ps[l].key == ps[i].key
    requires i > 0 ==> ps[i - 1].key != ps[i].key
    requires Reduces(lines, ps[..i], f)
    ensures Reduces(lines + [Line(ps[i].key, f(ps[i].key, Values(ps[i..j], ps[i].key)))], ps[..j], f)
  {
    var k := ps[i].key;
    assert ps[..j] == ps[..i] + ps[i..j];
    forall l | 0 <= l < i ensures ps[l].key != k {
      if ps[l].key == k { Contiguous(ps, l, i - 1, i); }
    }
    ValuesOfOne(ps[..i], k);
    ValuesOfOne(ps[i..j], k);
    assert Values(ps[i..j], k) != [] by { assert ps[i..j][0].key == k; }
    forall k' ensures Values(ps[..j], k') == if k' == k then Values(ps[i..j], k) else Values(ps[..i], k') {
      ValuesConcat(ps[..i], ps[i..j], k');
      if k' != k { ValuesOfOne(ps[i..j], k'); }
    }
    OneMoreLine(lines, ps[..i], ps[..j], k, f);
  }

  /** One more key with its values, everything else as before. */
  lemma OneMoreLine(lines: seq<Line>, ps: seq<KeyValue>, qs: seq<KeyValue>, k: string, f: (string, seq<string>) -> string)
    requires Reduces(lines, ps, f) && Values(ps, k) == [] && Values(qs, k) != []
    requires forall k' :: k' != k ==> Values(qs, k') == Values(ps, k')
    ensures Reduces(lines + [Line(k, f(k, Values(qs, k)))], qs, f)
  {
    var more := lines + [Line(k, f(k, Values(qs, k)))];
    forall k' | Values(qs, k') != [] ensures HasLine(more, k') {
      if k' == k {
        assert more[|lines|].key == k;
      } else {
        assert HasLine(lines, k');
        var i :| 0 <= i < |lines| && lines[i].key == k';
        assert more[i].key == k';
      }
    }
  }

  /** The end of the run of equal keys that starts at `i`. */
  function GroupEnd(ps: seq<KeyValue>, i: nat): (j: nat)
    requires i < |ps|
    ensures i < j <= |ps| && (forall l :: i <= l < j ==> ps[l].key == ps[i].key) && (j < |ps| ==> ps[j].key != ps[i].key)
    decreases |ps| - i
  {
    if i + 1 < |ps| && ps[i + 1].key == ps[i].key then GroupEnd(ps, i + 1) else i + 1
  }

  /** The values of the pairs `i..j`. */
  function ValuesOf(ps: seq<KeyValue>, i: nat, j: nat): seq<string>
    requires i <= j <= |ps|
  {
    if i == j then [] else ValuesOf(ps, i, j - 1) + [ps[j - 1].val]
  }

  /** What the sequential program prints for its sorted pairs: a line for each run of equal keys. */
  function Scan(ps: seq<KeyValue>, i: nat, f: (string, seq<string>) -> string): seq<Line>
    requires i <= |ps|
    decreases |ps| - i
  {
    if i == |ps| then [] else
    var j := GroupEnd(ps, i);
    [Line(ps[i].key, f(ps[i].key, ValuesOf(ps, i, j)))] + Scan(ps, j, f)
  }

  lemma {:induction false} GroupIsValues(ps: seq<KeyValue>, i: nat, j: nat, k: string)
    requires i <= j <= |ps| && forall l :: i <= l < j ==> ps[l].key == k
    ensures ValuesOf(ps, i, j) == Values(ps[i..j], k)
  {
    if i < j {
      GroupIsValues(ps, i, j - 1, k);
      assert ps[i..j][..j - i - 1] == ps[i..j - 1];
    }
  }

  lemma {:induction false} ScanExtends(ps: seq<KeyValue>, i: nat, lines: seq<Line>, f: (string, seq<string>) -> string)
    requires SortedByKey(ps) && i <= |ps| && (0 < i < |ps| ==> ps[i - 1].key != ps[i].key)
    requires Reduces(lines, ps[..i], f)
    ensures Reduces(lines + Scan(ps, i, f), ps, f)
    decreases |ps| - i
  {
    if i == |ps| {
      assert ps[..i] == ps && lines + [] == lines;
    } else {
      var j := GroupEnd(ps, i);
      var more := lines + [Line(ps[i].key, f(ps[i].key, ValuesOf(ps, i, j)))];
      GroupIsValues(ps, i, j, ps[i].key);
      ScanGroup(ps, i, j, lines, f);
      ScanExtends(ps, j, more, f);
      assert lines + Scan(ps, i, f) == more + Scan(ps, j, f);
    }
  }

  /** Over sorted pairs that is the reduction of all pairs: one line for each key with all its values. */
  lemma ScanReduces(ps: seq<KeyValue>, f: (string, seq<string>) -> string)
    requires SortedByKey(ps)
    ensures Reduces(Scan(ps, 0, f), ps, f)
  {
    assert ps[..0] == [];
    ScanExtends(ps, 0, [], f);
    assert [] + Scan(ps, 0, f) == Scan(ps, 0, f);
  }

  /** The values of one run of equal keys. */
  method GroupValues(ps: seq<KeyValue>, i: nat, j: nat) returns (values: seq<string>)
    requires i < j <= |ps|
    ensures values == ValuesOf(ps, i, j)
  {
    values := [];
    var k := i;
    while k < j
      invariant i <= k <= j && values == ValuesOf(ps, i, k)
    {
      values := values + [ps[k].val];
      k := k + 1;
    }
  }

  /** The sequential program after its sort. */
  method SortAndScan(ps: seq<KeyValue>, f: (string, seq<string>) -> string) returns (lines: seq<Line>)
    ensures lines == Scan(ps, 0, f)
    ensures SortedByKey(ps) ==> Reduces(lines, ps, f)
  {
    lines := [];
    var i := 0;
    while i < |ps|
      invariant i <= |ps| && lines + Scan(ps, i, f) == Scan(ps, 0, f)
    {
      var j := i + 1;
      while j < |ps| && ps[j].key == ps[i].key
        invariant i < j <= |ps| && ps[j - 1].key == ps[i].key && GroupEnd(ps, i) == GroupEnd(ps, j - 1)
      {
        j := j + 1;
      }
      var values := GroupValues(ps, i, j);
      ghost var line := Line(ps[i].key, f(ps[i].key, values));
      assert Scan(ps, i, f) == [line] + Scan(ps, j, f);
      assert lines + Scan(ps, i, f) == (lines + [line]) + Scan(ps, j, f);
      lines := lines + [Line(ps[i].key, f(ps[i].key, values))];
      i := j;
    }
    if SortedByKey(ps) { ScanReduces(ps, f); }
  }

  // ---------------------------------------------------------------- the workers

  datatype Content = Pairs(ps: seq<KeyValue>) | Lines(lines: seq<Line>)

  /** The job's directory. */
  class Directory {
    var files: map<FileName, Content>
  }

  /** The first loop of a map task: pairs by reduce task; an empty bucket has no entry. */
  method Partition(kva: seq<KeyValue>, hash: string -> nat, n: nat) returns (agg: map<nat, seq<KeyValue>>)
    requires n > 0
    ensures forall h: nat :: h in agg <==> Bucket(kva, hash, n, h) != []
    ensures forall h :: h in agg ==> h < n && agg[h] == Bucket(kva, hash, n, h)
  {
    agg := map[];
    for i := 0 to |kva|
      invariant forall h: nat :: h in agg <==> Bucket(kva[..i], hash, n, h) != []
      invariant forall h :: h in agg ==> h < n && agg[h] == Bucket(kva[..i], hash, n, h)
    {
      assert kva[..i + 1][..i] == kva[..i];
      var h := hash(kva[i].key) % n;
      if h !in agg {
        agg := agg[h := []];
      }
      agg := agg[h := agg[h] + [kva[i]]];
    }
    assert kva[..|kva|] == kva;
  }

  /** The files a map task installs, and the temporary files it uses for them. */
  predicate Writes(task: nat, uuid: nat, hs: set<nat>, f: FileName) {
    (f.Inter? && f.task == task && f.bucket in hs) || (f.InterTmp? && f.task == task && f.uuid == uuid && f.bucket in hs)
  }

  /** What a map task has changed once the buckets `hs` are installed: their files are there,
      their temporary files are gone, and every other file is as it was. */
  ghost predicate MapInstalled(before: map<FileName, Content>, after: map<FileName, Content>, task: nat, uuid: nat,
                               agg: map<nat, seq<KeyValue>>, hs: set<nat>)
    requires hs <= agg.Keys
  {
    && (forall h :: h in hs ==> Inter(task, h) in after && after[Inter(task, h)] == Pairs(agg[h]))
    && (forall h :: h in hs ==> InterTmp(task, h, uuid) !in after)
    && (forall f :: !Writes(task, uuid, hs, f) ==> (f in after <==> f in before) && (f in before ==> after[f] == before[f]))
  }

  lemma InstallOne(before: map<FileName, Content>, mid: map<FileName, Content>, task: nat, uuid: nat,
                   agg: map<nat, seq<KeyValue>>, hs: set<nat>, h: nat)
    requires hs <= agg.Keys && h in agg && MapInstalled(before, mid, task, uuid, agg, hs)
    ensures MapInstalled(before, mid[Inter(task, h) := Pairs(agg[h])] - {InterTmp(task, h, uuid)}, task, uuid, agg, hs + {h})
  {
    var after := mid[Inter(task, h) := Pairs(agg[h])] - {InterTmp(task, h, uuid)};
    forall f | !Writes(task, uuid, hs + {h}, f) ensures (f in after <==> f in before) && (f in before ==> after[f] == before[f]) {
      assert !Writes(task, uuid, hs, f);
      assert f != Inter(task, h) && f != InterTmp(task, h, uuid);
    }
  }

  /** The whole map task after `mapf` returned `kva`. */
  method HandleMap(dir: Directory, kva: seq<KeyValue>, task: nat, hash: string -> nat, n: nat, uuid: nat)
      returns (agg: map<nat, seq<KeyValue>>)
    requires n > 0
    modifies dir
    ensures forall h: nat :: h in agg <==> Bucket(kva, hash, n, h) != []
    ensures forall h :: h in agg ==> h < n && agg[h] == Bucket(kva, hash, n, h)
    ensures MapInstalled(old(dir.files), dir.files, task, uuid, agg, agg.Keys)
  {
    agg := Partition(kva, hash, n);
    var todo := agg.Keys;
    while todo != {}
      invariant todo <= agg.Keys && MapInstalled(old(dir.files), dir.files, task, uuid, agg, agg.Keys - todo)
    {
      var h :| h in todo;
      ghost var mid := dir.files;
      var tmp, name := InterTmp(task, h, uuid), Inter(task, h);
      dir.files := dir.files[tmp := Pairs(agg[h])];
      // rename
      dir.files := dir.files[name := dir.files[tmp]] - {tmp};
      InstallOne(old(dir.files), mid, task, uuid, agg, agg.Keys - todo, h);
      assert dir.files == mid[name := Pairs(agg[h])] - {tmp};
      assert agg.Keys - (todo - {h}) == agg.Keys - todo + {h};
      todo := todo - {h};
    }
    assert agg.Keys - todo == agg.Keys;
  }

  /** The pairs of some files, one after the other. */
  function ReadAll(files: map<FileName, Content>, order: seq<FileName>): seq<KeyValue> {
    if order == [] then [] else
    var f := order[|order| - 1];
    ReadAll(files, order[..|order| - 1]) + if f in files && files[f].Pairs? then files[f].ps else []
  }

  /** Grouping by key while the files are read. */
  ghost predicate Grouped(kvs: map<string, seq<string>>, ps: seq<KeyValue>) {
    && (forall k :: k in kvs <==> Values(ps, k) != [])
    && (forall k :: k in kvs ==> kvs[k] == Values(ps, k))
  }

  lemma GroupOne(kvs: map<string, seq<string>>, ps: seq<KeyValue>, p: KeyValue)
    requires Grouped(kvs, ps)
    ensures Grouped(kvs[p.key := (if p.key in kvs then kvs[p.key] else []) + [p.val]], ps + [p])
  {
    assert (ps + [p])[..|ps|] == ps;
    forall k ensures Values(ps + [p], k) == Values(ps, k) + if p.key == k then [p.val] else [] { }
  }

  method AddPairs(kvs0: map<string, seq<string>>, slc: seq<KeyValue>, ghost read: seq<KeyValue>)
      returns (kvs: map<string, seq<string>>)
    requires Grouped(kvs0, read)
    ensures Grouped(kvs, read + slc)
  {
    kvs := kvs0;
    ghost var cur := read;
    for i := 0 to |slc|
      invariant cur == read + slc[..i]
      invariant Grouped(kvs, cur)
    {
      var p := slc[i];
      GroupOne(kvs, cur, p);
      if p.key in kvs {
        kvs := kvs[p.key := kvs[p.key] + [p.val]];
      } else {
        kvs := kvs[p.key := [] + [p.val]];
      }
      cur := cur + [p];
    }
    assert slc[..|slc|] == slc;
  }

  /** The lines of the keys in `done`. */
  ghost predicate Emitted(reds: seq<Line>, kvs: map<string, seq<string>>, done: set<string>, f: (string, seq<string>) -> string)
    requires done <= kvs.Keys
  {
    && (forall i, j :: 0 <= i < j < |reds| ==> reds[i].key != reds[j].key)
    && (forall i :: 0 <= i < |reds| ==> reds[i].key in done && reds[i].out == f(reds[i].key, kvs[reds[i].key]))
    && (forall k :: k in done ==> HasLine(reds, k))
  }

  lemma EmitOne(reds: seq<Line>, kvs: map<string, seq<string>>, done: set<string>, f: (string, seq<string>) -> string, k: string)
    requires done <= kvs.Keys && Emitted(reds, kvs, done, f) && k in kvs && k !in done
    ensures Emitted(reds + [Line(k, f(k, kvs[k]))], kvs, done + {k}, f)
  {
    var more := reds + [Line(k, f(k, kvs[k]))];
    assert more[|reds|].key == k;
    forall k' | k' in done ensures HasLine(more, k') {
      assert HasLine(reds, k');
      var i :| 0 <= i < |reds| && reds[i].key == k';
      assert more[i].key == k';
    }
  }

  /** The lines of a reduce task; the map is visited in any order. */
  method EmitLines(kvs: map<string, seq<string>>, f: (string, seq<string>) -> string, ghost read: seq<KeyValue>)
      returns (reds: seq<Line>)
    requires Grouped(kvs, read)
    ensures Reduces(reds, read, f)
  {
    reds := [];
    var todo := kvs.Keys;
    while todo != {}
      invariant todo <= kvs.Keys && Emitted(reds, kvs, kvs.Keys - todo, f)
    {
      var k :| k in todo;
      EmitOne(reds, kvs, kvs.Keys - todo, f, k);
      assert kvs.Keys - (todo - {k}) == kvs.Keys - todo + {k};
      reds := reds + [Line(k, f(k, kvs[k]))];
      todo := todo - {k};
    }
  }

  /** The whole reduce task: it reads, in some order, each file that the name filter selects,
      and installs the reduction of what it read. `order` lists the files read. */
  method HandleReduce(dir: Directory, reducer: nat, f: (string, seq<string>) -> string)
      returns (order: seq<FileName>, reds: seq<Line>)
    requires forall g :: g in dir.files && g.Inter? ==> dir.files[g].Pairs?
    modifies dir
    ensures forall g :: g in order <==> g in old(dir.files) && g.Inter? && g.bucket == reducer
    ensures forall i, j :: 0 <= i < j < |order| ==> order[i] != order[j]
    ensures Reduces(reds, ReadAll(old(dir.files), order), f)
    ensures dir.files == old(dir.files)[Out(reducer) := Lines(reds)] - {OutTmp(reducer)}
  {
    var kvs: map<string, seq<string>> := map[];
    order := [];
    var todo := dir.files.Keys;
    while todo != {}
      invariant todo <= dir.files.Keys && dir.files == old(dir.files)
      invariant forall g :: g in order <==> g in dir.files.Keys - todo && g.Inter? && g.bucket == reducer
      invariant forall i, j :: 0 <= i < j < |order| ==> order[i] != order[j]
      invariant Grouped(kvs, ReadAll(dir.files, order))
    {
      var g :| g in todo;
      SelectedIff(g, reducer);
      if Selected(Render(g), reducer) {
        kvs := AddPairs(kvs, dir.files[g].ps, ReadAll(dir.files, order));
        assert (order + [g])[..|order|] == order;
        order := order + [g];
      }
      todo := todo - {g};
    }
    reds := EmitLines(kvs, f, ReadAll(dir.files, order));
    dir.files := dir.files[OutTmp(reducer) := Lines(reds)];
    // rename
    dir.files := dir.files[Out(reducer) := dir.files[OutTmp(reducer)]] - {OutTmp(reducer)};
  }
}
