/** How a reduce task's output file gets its name: every execution of the task creates the same
    temporary file, writes it and renames it. When that leaves a complete output, and when not. */
module MrInstall {
  import opened MrData

  /** An execution has yet to create the file, has file `ino` open, has written it, or has renamed. */
  datatype Stage = Before | Opened(ino: nat) | Written(ino: nat) | Renamed

  /** `opener` is a history variable: who created or truncated the file last. */
  datatype File = File(text: string, opener: nat)

  datatype Name = Missing | Names(ino: nat)

  datatype State = State(files: seq<File>, tmp: Name, out: Name, execs: seq<Stage>)

  datatype Action = Create(e: nat) | Write(e: nat) | Rename(e: nat)

  function Begin(n: nat): State {
    State([], Missing, Missing, seq(n, _ => Before))
  }

  predicate Enabled(s: State, a: Action) {
    && a.e < |s.execs|
    && match a
       case Create(e) => s.execs[e].Before?
       case Write(e) => s.execs[e].Opened?
       case Rename(e) => s.execs[e].Written?
  }

  /** Creating a file that is there truncates it. */
  function DoCreate(s: State, e: nat): State
    requires e < |s.execs|
  {
    if s.tmp.Names? && s.tmp.ino < |s.files|
    then s.(files := s.files[s.tmp.ino := File("", e)], execs := s.execs[e := Opened(s.tmp.ino)])
    else s.(files := s.files + [File("", e)], tmp := Names(|s.files|), execs := s.execs[e := Opened(|s.files|)])
  }

  /** A write from the start of the file leaves what is beyond its end. */
  function Over(text: string, before: string): string {
    text + if |before| > |text| then before[|text|..] else ""
  }

  function DoWrite(s: State, e: nat, text: string): State
    requires e < |s.execs| && s.execs[e].Opened?
  {
    var i := s.execs[e].ino;
    s.(files := if i < |s.files| then s.files[i := s.files[i].(text := Over(text, s.files[i].text))] else s.files,
       execs := s.execs[e := Written(i)])
  }

  /** Renaming a file that is not there fails, and the failure is ignored. */
  function DoRename(s: State, e: nat): State
    requires e < |s.execs|
  {
    if s.tmp.Names? then s.(out := s.tmp, tmp := Missing, execs := s.execs[e := Renamed])
    else s.(execs := s.execs[e := Renamed])
  }

  /** `texts[e]` is what execution `e` prints. */
  function Do(texts: seq<string>, s: State, a: Action): State {
    if !Enabled(s, a) then s else
    match a
    case Create(e) => DoCreate(s, e)
    case Write(e) => DoWrite(s, e, if e < |texts| then texts[e] else "")
    case Rename(e) => DoRename(s, e)
  }

  function Run(texts: seq<string>, acts: seq<Action>): State {
    if acts == [] then Begin(|texts|) else Do(texts, Run(texts, acts[..|acts| - 1]), acts[|acts| - 1])
  }

  // ---------------------------------------------------------------- what executions print

  lemma {:induction false} InsertedLength(l: seq<string>, x: string, r: seq<string>)
    ensures |Flatten(l + ([x] + r))| == |Flatten(l + r)| + |x|
  {
    if r == [] {
      assert l + ([x] + r) == l + [x] && l + r == l;
      assert (l + [x])[..|l|] == l;
    } else {
      var init, y := r[..|r| - 1], r[|r| - 1];
      InsertedLength(l, x, init);
      var s, t := l + ([x] + r), l + r;
      assert s[..|s| - 1] == l + ([x] + init) && s[|s| - 1] == y;
      assert t[..|t| - 1] == l + init && t[|t| - 1] == y;
    }
  }

  lemma {:induction false} PermutedLength(a: seq<string>, b: seq<string>)
    requires multiset(a) == multiset(b)
    ensures |Flatten(a)| == |Flatten(b)|
  {
    if a == [] {
      assert |multiset(b)| == 0;
    } else {
      var init, x := a[..|a| - 1], a[|a| - 1];
      assert a == init + [x];
      assert x in multiset(b);
      var i :| 0 <= i < |b| && b[i] == x;
      var l, r := b[..i], b[i + 1..];
      assert b == l + ([x] + r);
      TakeOut(init, l, x, r);
      PermutedLength(init, l + r);
      InsertedLength(l, x, r);
    }
  }

  /** Executions of one reduce task, which read the same pairs in some order, print texts of one length. */
  lemma {:induction false} ExecutionsAgree(lines: seq<Line>, ps: seq<KeyValue>, lines': seq<Line>, qs: seq<KeyValue>,
                                           f: (string, seq<string>) -> string)
    requires OrderBlind(f) && multiset(ps) == multiset(qs) && Reduces(lines, ps, f) && Reduces(lines', qs, f)
    ensures |Flatten(Texts(lines))| == |Flatten(Texts(lines'))|
  {
    ReducesPermute(lines', qs, ps, f);
    forall x ensures multiset(lines)[x] == multiset(lines')[x] {
      LineCount(lines, ps, f, x);
      LineCount(lines', ps, f, x);
    }
    TextsPermute(lines, lines');
    PermutedLength(Texts(lines), Texts(lines'));
  }

  /** The executions print the same lines in some order, so texts of one length. */
  ghost predicate OneLength(texts: seq<string>) {
    forall d, e :: 0 <= d < |texts| && 0 <= e < |texts| ==> |texts[d]| == |texts[e]|
  }

  /** Once some execution is through, and may report the task as done, the output is there and is
      the complete text of some execution. */
  ghost predicate Complete(texts: seq<string>, s: State) {
    (exists e :: 0 <= e < |s.execs| && s.execs[e] == Renamed) ==>
      s.out.Names? && s.out.ino < |s.files| && s.files[s.out.ino].text in texts
  }

  // ---------------------------------------------------------------- a condition on the run

  /** At this step an execution renames a file that another one created after it. */
  predicate RenamesAnothers(s: State, a: Action) {
    a.Rename? && Enabled(s, a) && s.tmp.Names? && s.tmp.ino < |s.files| && s.files[s.tmp.ino].opener != a.e
  }

  predicate Undisturbed(texts: seq<string>, acts: seq<Action>) {
    acts == [] ||
    (Undisturbed(texts, acts[..|acts| - 1]) && !RenamesAnothers(Run(texts, acts[..|acts| - 1]), acts[|acts| - 1]))
  }

  /** The file is whole, or the one that truncated it has still to write it. */
  predicate Whole(texts: seq<string>, s: State, i: nat)
    requires i < |s.files|
  {
    || s.files[i].text in texts
    || (s.files[i].text == "" && s.files[i].opener < |s.execs| && s.execs[s.files[i].opener] == Opened(i))
  }

  ghost predicate NamesOk(s: State) {
    && (s.tmp.Names? ==> s.tmp.ino < |s.files|) && (s.out.Names? ==> s.out.ino < |s.files|)
    && (s.tmp.Names? && s.out.Names? ==> s.tmp.ino != s.out.ino)
    && (forall e :: 0 <= e < |s.execs| && (s.execs[e].Opened? || s.execs[e].Written?) ==> s.execs[e].ino < |s.files|)
    && ((exists e :: 0 <= e < |s.execs| && !s.execs[e].Before?) ==> s.tmp.Names? || s.out.Names?)
    && ((exists e :: 0 <= e < |s.execs| && s.execs[e].Renamed?) ==> s.out.Names?)
    && (forall i :: 0 <= i < |s.files| ==> s.files[i].opener < |s.execs| && !s.execs[s.files[i].opener].Before?)
    && (forall i, e :: 0 <= i < |s.files| && s.files[i].opener == e && (s.execs[e].Opened? || s.execs[e].Written?) ==>
          s.execs[e].ino == i)
  }

  ghost predicate Inv(texts: seq<string>, s: State) {
    && |s.execs| == |texts| && NamesOk(s)
    && (forall i :: 0 <= i < |s.files| ==> Whole(texts, s, i))
    && (s.out.Names? ==> s.files[s.out.ino].text in texts)
  }

  lemma WriteOver(texts: seq<string>, e: nat, before: string)
    requires OneLength(texts) && e < |texts| && (before in texts || before == "")
    ensures Over(texts[e], before) == texts[e]
  {
    if before in texts {
      var d :| 0 <= d < |texts| && texts[d] == before;
      assert |before| == |texts[e]|;
    }
  }

  lemma CreateOk(texts: seq<string>, s: State, e: nat)
    requires Inv(texts, s) && Enabled(s, Create(e))
    ensures Inv(texts, DoCreate(s, e))
  {
    var t := DoCreate(s, e);
    assert t.execs[e].Opened?;
    forall i | 0 <= i < |t.files| ensures Whole(texts, t, i) {
      if i < |s.files| { assert Whole(texts, s, i); }
    }
  }

  lemma WriteOk(texts: seq<string>, s: State, e: nat)
    requires OneLength(texts) && Inv(texts, s) && Enabled(s, Write(e))
    ensures Inv(texts, DoWrite(s, e, texts[e]))
  {
    var t, i := DoWrite(s, e, texts[e]), s.execs[e].ino;
    assert Whole(texts, s, i);
    WriteOver(texts, e, s.files[i].text);
    forall j | 0 <= j < |t.files| ensures Whole(texts, t, j) { assert Whole(texts, s, j); }
  }

  lemma RenameOk(texts: seq<string>, s: State, e: nat)
    requires Inv(texts, s) && Enabled(s, Rename(e)) && !RenamesAnothers(s, Rename(e))
    ensures Inv(texts, DoRename(s, e))
  {
    var t := DoRename(s, e);
    if s.tmp.Names? { assert Whole(texts, s, s.tmp.ino); }
    forall j | 0 <= j < |t.files| ensures Whole(texts, t, j) { assert Whole(texts, s, j); }
  }

  lemma {:induction false} InvHolds(texts: seq<string>, acts: seq<Action>)
    requires OneLength(texts) && Undisturbed(texts, acts)
    ensures Inv(texts, Run(texts, acts))
  {
    if acts != [] {
      var s, a := Run(texts, acts[..|acts| - 1]), acts[|acts| - 1];
      InvHolds(texts, acts[..|acts| - 1]);
      if Enabled(s, a) {
        match a
        case Create(e) => CreateOk(texts, s, e);
        case Write(e) => WriteOk(texts, s, e);
        case Rename(e) => RenameOk(texts, s, e);
      }
    }
  }

  /** In every run in which no execution renames a file that another one has created anew since,
      the output is complete whenever an execution is through. */
  lemma {:induction false} UndisturbedIsComplete(texts: seq<string>, acts: seq<Action>)
    requires OneLength(texts) && Undisturbed(texts, acts)
    ensures Complete(texts, Run(texts, acts))
  {
    InvHolds(texts, acts);
  }

  // ---------------------------------------------------------------- all runs

  ghost predicate AlwaysComplete(texts: seq<string>) {
    forall acts :: Complete(texts, Run(texts, acts))
  }

  /** With one execution there is no other to create the file anew. */
  lemma {:induction false} AloneIsUndisturbed(texts: seq<string>, acts: seq<Action>)
    requires |texts| <= 1
    ensures Undisturbed(texts, acts)
  {
    if acts != [] {
      AloneIsUndisturbed(texts, acts[..|acts| - 1]);
      InvHolds(texts, acts[..|acts| - 1]);
    }
  }

  /** What holds of all runs, disturbed or not, when every text is empty. */
  ghost predicate Blank(s: State) {
    NamesOk(s) && forall i :: 0 <= i < |s.files| ==> s.files[i].text == ""
  }

  lemma {:induction false} BlankHolds(texts: seq<string>, acts: seq<Action>)
    requires forall e :: 0 <= e < |texts| ==> texts[e] == ""
    ensures |Run(texts, acts).execs| == |texts| && Blank(Run(texts, acts))
  {
    if acts != [] {
      BlankHolds(texts, acts[..|acts| - 1]);
      BlankStep(texts, Run(texts, acts[..|acts| - 1]), acts[|acts| - 1]);
    }
  }

  lemma BlankStep(texts: seq<string>, s: State, a: Action)
    requires (forall e :: 0 <= e < |texts| ==> texts[e] == "") && |s.execs| == |texts| && Blank(s)
    ensures |Do(texts, s, a).execs| == |texts| && Blank(Do(texts, s, a))
  {
    if Enabled(s, a) {
      NamesStep(s, a, "");
    }
  }

  /** The names of the files, in every run. */
  lemma NamesStep(s: State, a: Action, text: string)
    requires NamesOk(s) && Enabled(s, a)
    ensures NamesOk(
              match a case Create(e) => DoCreate(s, e) case Write(e) => DoWrite(s, e, text) case Rename(e) => DoRename(s, e))
  {
    match a
    case Create(e) => assert DoCreate(s, e).execs[e].Opened?;
    case Write(e) => assert DoWrite(s, e, text).execs[e].Written?;
    case Rename(e) => assert DoRename(s, e).execs[e].Renamed?;
  }

  lemma RunExtends(texts: seq<string>, acts: seq<Action>, a: Action)
    ensures Run(texts, acts + [a]) == Do(texts, Run(texts, acts), a)
  {
    var more := acts + [a];
    assert more[..|more| - 1] == acts && more[|more| - 1] == a;
  }

  lemma FirstWrites(texts: seq<string>)
    requires |texts| >= 2
    ensures var s := Run(texts, [Create(0)] + [Write(0)]);
            && |s.files| == 1 && s.tmp == Names(0) && s.out == Missing
            && |s.execs| == |texts| && s.execs[0] == Written(0) && s.execs[1] == Before
  {
    RunExtends(texts, [], Create(0));
    assert [] + [Create(0)] == [Create(0)];
    RunExtends(texts, [Create(0)], Write(0));
  }

  /** The run that goes wrong: the second execution truncates the file that the first one wrote and
      then renames. */
  lemma TruncatedRun(texts: seq<string>)
    requires |texts| >= 2 && forall e :: 0 <= e < |texts| ==> texts[e] != ""
    ensures !Complete(texts, Run(texts, [Create(0)] + [Write(0)] + [Create(1)] + [Rename(0)]))
  {
    var a := [Create(0)] + [Write(0)];
    FirstWrites(texts);
    RunExtends(texts, a, Create(1));
    var s3 := Run(texts, a + [Create(1)]);
    assert s3.files == [File("", 1)] && s3.tmp == Names(0) && s3.execs[0] == Written(0);
    RunExtends(texts, a + [Create(1)], Rename(0));
    assert Run(texts, a + [Create(1)] + [Rename(0)]).execs[0] == Renamed;
  }

  /** In all runs the output is complete whenever an execution is through, exactly when the task is
      executed at most once or has nothing to print. */
  lemma AlwaysCompleteIff(texts: seq<string>)
    requires OneLength(texts)
    ensures AlwaysComplete(texts) <==> |texts| <= 1 || texts[0] == ""
  {
    if |texts| <= 1 {
      forall acts ensures Complete(texts, Run(texts, acts)) {
        AloneIsUndisturbed(texts, acts);
        UndisturbedIsComplete(texts, acts);
      }
    } else if texts[0] == "" {
      forall acts ensures Complete(texts, Run(texts, acts)) {
        BlankHolds(texts, acts);
      }
    } else {
      TruncatedRun(texts);
    }
  }
}
