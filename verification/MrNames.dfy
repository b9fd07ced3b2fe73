/** The file names of a MapReduce job and the name filter of a reduce task. */
module MrNames {

  function Digit(d: nat): char
    requires d < 10
  {
    "0123456789"[d]
  }

  /** The decimal form of a number. */
  function Decimal(n: nat): (s: string)
    ensures s != ""
  {
    if n < 10 then [Digit(n)] else Decimal(n / 10) + [Digit(n % 10)]
  }

  predicate IsDigit(c: char) {
    '0' <= c <= '9'
  }

  lemma {:induction false} DecimalDigits(n: nat)
    ensures forall i :: 0 <= i < |Decimal(n)| ==> IsDigit(Decimal(n)[i])
  {
    if n >= 10 { DecimalDigits(n / 10); }
  }

  lemma {:induction false} DecimalInjective(m: nat, n: nat)
    requires Decimal(m) == Decimal(n)
    ensures m == n
  {
    var s := Decimal(m);
    assert s[|s| - 1] == Digit(m % 10) && s[|s| - 1] == Digit(n % 10);
    DigitInjective(m % 10, n % 10);
    if m >= 10 && n >= 10 {
      assert s[..|s| - 1] == Decimal(m / 10) && s[..|s| - 1] == Decimal(n / 10);
      DecimalInjective(m / 10, n / 10);
    }
  }

  /** The number that a string of digits denotes. */
  function ValueOf(s: string): int {
    if s == "" then 0 else 10 * ValueOf(s[..|s| - 1]) + (s[|s| - 1] as int - '0' as int)
  }

  /** The decimal form denotes its number and has no leading zero. */
  lemma {:induction false} DecimalValue(n: nat)
    ensures ValueOf(Decimal(n)) == n
    ensures n > 0 ==> Decimal(n)[0] != '0'
  {
    if n < 10 {
      assert [Digit(n)][..0] == "";
    } else {
      DecimalValue(n / 10);
      var s := Decimal(n);
      assert s[..|s| - 1] == Decimal(n / 10);
    }
  }

  lemma DigitInjective(a: nat, b: nat)
    requires a < 10 && b < 10 && Digit(a) == Digit(b)
    ensures a == b
  {
  }

  /** `strings.Split` at hyphens. */
  function Split(s: string): (parts: seq<string>)
    ensures parts != []
  {
    if s == "" then [""]
    else if s[0] == '-' then [""] + Split(s[1..])
    else var r := Split(s[1..]); [[s[0]] + r[0]] + r[1..]
  }

  predicate Plain(s: string) {
    '-' !in s
  }

  /** The part before the first hyphen is the first piece. */
  lemma {:induction false} SplitPlain(a: string, rest: string)
    requires Plain(a)
    ensures Split(a) == [a]
    ensures Split(a + "-" + rest) == [a] + Split(rest)
  {
    if a == "" {
      assert a + "-" + rest == "-" + rest;
      assert ("-" + rest)[1..] == rest;
    } else {
      SplitPlain(a[1..], rest);
      var s := a + "-" + rest;
      assert s[1..] == a[1..] + "-" + rest;
      assert [a[0]] + a[1..] == a;
    }
  }

  /** The files in a job's directory: what a map task leaves for a reducer, what a reduce task
      writes, and the temporary files that are renamed to these. */
  datatype FileName =
    | Inter(task: nat, bucket: nat)
    | InterTmp(task: nat, bucket: nat, uuid: nat)
    | Out(reducer: nat)
    | OutTmp(reducer: nat)

  function Pieces(f: FileName): seq<string> {
    match f
    case Inter(t, b) => ["mr", Decimal(t), Decimal(b)]
    case InterTmp(t, b, u) => ["mr", Decimal(t), Decimal(b), Decimal(u), "tmp"]
    case Out(r) => ["mr", "out", Decimal(r)]
    case OutTmp(r) => ["mr", "out", Decimal(r), "tmp"]
  }

  /** The pieces with hyphens between them. */
  function Hyphenated(parts: seq<string>): string
    requires parts != []
  {
    if |parts| == 1 then parts[0] else parts[0] + "-" + Hyphenated(parts[1..])
  }

  /** The name on disk. */
  function Render(f: FileName): string {
    Hyphenated(Pieces(f))
  }

  lemma {:induction false} SplitHyphenated(parts: seq<string>)
    requires parts != [] && forall i :: 0 <= i < |parts| ==> Plain(parts[i])
    ensures Split(Hyphenated(parts)) == parts
  {
    if |parts| == 1 {
      SplitPlain(parts[0], "");
    } else {
      SplitHyphenated(parts[1..]);
      SplitPlain(parts[0], Hyphenated(parts[1..]));
      assert parts == [parts[0]] + parts[1..];
    }
  }

  lemma DecimalPlain(n: nat)
    ensures Plain(Decimal(n)) && Decimal(n) != "out"
  {
    DecimalDigits(n);
    assert IsDigit(Decimal(n)[0]);
  }

  lemma SplitRender(f: FileName)
    ensures Split(Render(f)) == Pieces(f)
  {
    match f
    case Inter(t, b) => DecimalPlain(t); DecimalPlain(b); SplitHyphenated(Pieces(f));
    case InterTmp(t, b, u) => DecimalPlain(t); DecimalPlain(b); DecimalPlain(u); SplitHyphenated(Pieces(f));
    case Out(r) => DecimalPlain(r); SplitHyphenated(Pieces(f));
    case OutTmp(r) => DecimalPlain(r); SplitHyphenated(Pieces(f));
  }

  /** Different files have different names on disk. */
  lemma RenderInjective(f: FileName, g: FileName)
    requires Render(f) == Render(g)
    ensures f == g
  {
    SplitRender(f);
    SplitRender(g);
    var p, q := Pieces(f), Pieces(g);
    assert p[1] == q[1];
    match f
    case Inter(t, b) =>
      DecimalPlain(t);
      DecimalInjective(t, g.task);
      DecimalInjective(b, g.bucket);
    case InterTmp(t, b, u) =>
      DecimalInjective(t, g.task);
      DecimalInjective(b, g.bucket);
      DecimalInjective(u, g.uuid);
    case Out(r) =>
      if g.Inter? { DecimalPlain(g.task); }
      DecimalInjective(r, g.reducer);
    case OutTmp(r) => DecimalInjective(r, g.reducer);
  }

  /** The reduce task's filter on directory entries. */
  predicate Selected(name: string, reducer: nat) {
    var parts := Split(name);
    |parts| == 3 && parts[1] != "out" && parts[|parts| - 1] == Decimal(reducer)
  }

  /** It selects exactly the map outputs meant for the reducer: no temporary file, no output file. */
  lemma {:induction false} SelectedIff(f: FileName, reducer: nat)
    ensures Selected(Render(f), reducer) <==> f.Inter? && f.bucket == reducer
  {
    SplitRender(f);
    if f.Inter? {
      DecimalPlain(f.task);
      if Decimal(f.bucket) == Decimal(reducer) { DecimalInjective(f.bucket, reducer); }
    }
  }
}
