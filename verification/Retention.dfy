/**
 The artifact pass of the retention cleanup: an age rule, a byte cap that evicts oldest first,
 and artifacts of active sessions, which are skipped.
 */
module Retention {
  import opened Wrappers
  import opened HarnessModels

  /** A row of harness_artifacts; `time` is its creation time when the text parses as one. */
  datatype Artifact = Artifact(id: string, run: string, path: string, created: string, time: Option<real>)

  datatype Session = Session(run: string, task: string, status: Status)

  datatype Worktree = Worktree(run: string, task: string)

  /** `worktrees` is listed newest first; looking up a run in `unreadable` raises. */
  datatype Env = Env(worktrees: seq<Worktree>, sessions: seq<Session>, unreadable: set<string>)

  /** The size of every file that exists. */
  type Files = map<string, nat>

  function Size(files: Files, a: Artifact): nat {
    if a.path in files then files[a.path] else 0
  }

  function Total(rows: seq<Artifact>, files: Files): nat {
    if |rows| == 0 then 0 else Size(files, rows[0]) + Total(rows[1..], files)
  }

  // --- The active-session check

  predicate ActiveStatus(s: Status) {
    s.Created? || s.Starting? || s.Running? || s.WaitingForReply? || s.Verifying?
  }

  /** An empty task id puts no condition on the session. */
  predicate ActiveTask(env: Env, task: string) {
    exists i :: 0 <= i < |env.sessions| && (task == "" || env.sessions[i].task == task) && ActiveStatus(env.sessions[i].status)
  }

  function TaskOfRun(worktrees: seq<Worktree>, run: string): Option<string> {
    if |worktrees| == 0 then None
    else if worktrees[0].run == run then Some(worktrees[0].task)
    else TaskOfRun(worktrees[1..], run)
  }

  predicate ActiveRun(env: Env, run: string) {
    && run !in env.unreadable
    && TaskOfRun(env.worktrees, run).Some?
    && ActiveTask(env, TaskOfRun(env.worktrees, run).value)
  }

  // --- Selection

  datatype Test = Aged(cutoff: real) | Busy(env: Env) | Among(rows: seq<Artifact>) | Not(test: Test)

  predicate Passes(a: Artifact, test: Test) {
    match test
    case Aged(cutoff) => a.time.Some? && a.time.value <= cutoff
    case Busy(env) => ActiveRun(env, a.run)
    case Among(rows) => a in rows
    case Not(t) => !Passes(a, t)
  }

  function Filter(rows: seq<Artifact>, test: Test): seq<Artifact> {
    if |rows| == 0 then []
    else if Passes(rows[0], test) then [rows[0]] + Filter(rows[1..], test)
    else Filter(rows[1..], test)
  }

  /** The order of texts by their characters. */
  predicate TextLe(a: string, b: string) {
    |a| == 0 || (|b| > 0 && (a[0] < b[0] || (a[0] == b[0] && TextLe(a[1..], b[1..]))))
  }

  datatype Key = ByText | ByTime

  function Instant(a: Artifact): real {
    if a.time.Some? then a.time.value else 0.0
  }

  predicate Le(a: Artifact, b: Artifact, key: Key) {
    match key
    case ByText => TextLe(a.created, b.created)
    case ByTime => Instant(a) <= Instant(b)
  }

  function Insert(a: Artifact, rows: seq<Artifact>, key: Key): seq<Artifact> {
    if |rows| == 0 || Le(a, rows[0], key) then [a] + rows else [rows[0]] + Insert(a, rows[1..], key)
  }

  /** A stable sort. */
  function Sorted(rows: seq<Artifact>, key: Key): seq<Artifact> {
    if |rows| == 0 then [] else Insert(rows[0], Sorted(rows[1..], key), key)
  }

  /** How many rows the byte cap takes from the front. */
  function TakeCount(extra: seq<Artifact>, files: Files, bytes: int, cap: int): (n: nat)
    ensures n <= |extra|
  {
    if |extra| == 0 || bytes <= cap then 0
    else 1 + TakeCount(extra[1..], files, bytes - Size(files, extra[0]), cap)
  }

  datatype Plan = Plan(rows: seq<Artifact>, env: Env, cutoff: real, cap: int)

  function Extra(p: Plan): seq<Artifact> {
    Sorted(Filter(p.rows, Not(Aged(p.cutoff))), ByText)
  }

  function Taken(p: Plan, files: Files): seq<Artifact> {
    var total := Total(p.rows, files);
    if total > p.cap then Extra(p)[..TakeCount(Extra(p), files, total, p.cap)] else []
  }

  function Candidates(p: Plan, files: Files): seq<Artifact> {
    Sorted(Filter(p.rows, Aged(p.cutoff)) + Taken(p, files), ByTime)
  }

  function Listed(p: Plan, files: Files): seq<Artifact> {
    Filter(Candidates(p, files), Not(Busy(p.env)))
  }

  function Skipped(p: Plan, files: Files): seq<Artifact> {
    Filter(Candidates(p, files), Busy(p.env))
  }

  /** The rows a pass does not list as deleted. */
  function Unlisted(p: Plan, files: Files): seq<Artifact> {
    Filter(p.rows, Not(Among(Listed(p, files))))
  }

  /** The files that are left when every listed file is unlinked. */
  function Unlinked(files: Files, listed: seq<Artifact>): Files {
    map path | path in files && (forall i :: 0 <= i < |listed| ==> listed[i].path != path) :: files[path]
  }

  /** The id is the primary key of the table. */
  predicate UniqueIds(rows: seq<Artifact>) {
    forall i, j :: 0 <= i < j < |rows| ==> rows[i].id != rows[j].id
  }

  // --- Counting

  lemma {:induction false} FilterCounts(rows: seq<Artifact>, test: Test, a: Artifact)
    ensures multiset(Filter(rows, test))[a] == if Passes(a, test) then multiset(rows)[a] else 0
  {
    if |rows| > 0 {
      assert rows == [rows[0]] + rows[1..];
      FilterCounts(rows[1..], test, a);
    }
  }

  lemma {:induction false} InsertCounts(a: Artifact, rows: seq<Artifact>, key: Key)
    ensures multiset(Insert(a, rows, key)) == multiset{a} + multiset(rows)
  {
    if |rows| > 0 && !Le(a, rows[0], key) {
      InsertCounts(a, rows[1..], key);
      assert rows == [rows[0]] + rows[1..];
    }
  }

  lemma {:induction false} SortPermutes(rows: seq<Artifact>, key: Key)
    ensures multiset(Sorted(rows, key)) == multiset(rows)
  {
    if |rows| > 0 {
      assert rows == [rows[0]] + rows[1..];
      SortPermutes(rows[1..], key);
      InsertCounts(rows[0], Sorted(rows[1..], key), key);
    }
  }

  lemma {:induction false} TotalAppends(a: seq<Artifact>, b: seq<Artifact>, files: Files)
    ensures Total(a + b, files) == Total(a, files) + Total(b, files)
  {
    if |a| == 0 {
      assert a + b == b;
    } else {
      assert (a + b)[1..] == a[1..] + b;
      TotalAppends(a[1..], b, files);
    }
  }

  function Without(rows: seq<Artifact>, i: nat): seq<Artifact>
    requires i < |rows|
  {
    rows[..i] + rows[i + 1..]
  }

  lemma TotalWithout(rows: seq<Artifact>, i: nat, files: Files)
    requires i < |rows|
    ensures |Without(rows, i)| == |rows| - 1
    ensures Total(rows, files) == Size(files, rows[i]) + Total(Without(rows, i), files)
    ensures multiset(Without(rows, i)) == multiset(rows) - multiset{rows[i]}
  {
    var front, back := rows[..i], rows[i + 1..];
    assert rows == front + ([rows[i]] + back);
    TotalAppends(front, [rows[i]] + back, files);
    TotalAppends(front, back, files);
  }

  /** The total depends on which rows there are, not on their order. */
  lemma {:induction false} TotalPermutes(a: seq<Artifact>, b: seq<Artifact>, files: Files)
    requires multiset(a) == multiset(b)
    ensures Total(a, files) == Total(b, files)
    decreases |a|
  {
    assert |a| == |multiset(a)| == |multiset(b)| == |b|;
    if |a| > 0 {
      hide Total, Size, Without;
      var i := IndexOf(b, a[0]);
      TotalWithout(b, i, files);
      TotalWithout(a, 0, files);
      TotalPermutes(Without(a, 0), Without(b, i), files);
    }
  }

  lemma IndexOf(rows: seq<Artifact>, a: Artifact) returns (i: nat)
    requires a in multiset(rows)
    ensures i < |rows| && rows[i] == a
  {
    i :| 0 <= i < |rows| && rows[i] == a;
  }

  lemma {:induction false} FilterSplits(rows: seq<Artifact>, test: Test, files: Files)
    ensures Total(Filter(rows, test), files) + Total(Filter(rows, Not(test)), files) == Total(rows, files)
  {
    if |rows| > 0 {
      FilterSplits(rows[1..], test, files);
      if Passes(rows[0], test) {
        TotalAppends([rows[0]], Filter(rows[1..], test), files);
      } else {
        TotalAppends([rows[0]], Filter(rows[1..], Not(test)), files);
      }
    }
  }

  lemma {:induction false} FilterGrows(rows: seq<Artifact>, test: Test, a: Artifact)
    ensures a in Filter(rows, test) <==> a in rows && Passes(a, test)
  {
    FilterCounts(rows, test, a);
    assert a in rows <==> a in multiset(rows);
    assert a in Filter(rows, test) <==> a in multiset(Filter(rows, test));
  }

  lemma {:induction false} UniqueCounts(rows: seq<Artifact>, a: Artifact)
    requires UniqueIds(rows)
    ensures multiset(rows)[a] <= 1
  {
    if |rows| > 0 {
      UniqueCounts(rows[1..], a);
      assert rows == [rows[0]] + rows[1..];
      assert rows[0] !in multiset(rows[1..]);
    }
  }

  // --- What the cap takes

  /** The shortest prefix that brings the bytes down to the cap, or everything. */
  lemma {:induction false} TakeIsLeast(extra: seq<Artifact>, files: Files, bytes: int, cap: int, m: nat)
    requires m <= |extra|
    ensures var n := TakeCount(extra, files, bytes, cap);
            && (n < |extra| ==> bytes - Total(extra[..n], files) <= cap)
            && (bytes - Total(extra[..m], files) <= cap ==> n <= m)
  {
    if |extra| > 0 && bytes > cap {
      var rest := bytes - Size(files, extra[0]);
      var n := TakeCount(extra[1..], files, rest, cap);
      assert extra[..n + 1] == [extra[0]] + extra[1..][..n];
      TotalAppends([extra[0]], extra[1..][..n], files);
      TakeIsLeast(extra[1..], files, rest, cap, if m > 0 then m - 1 else 0);
      if m > 0 {
        assert extra[..m] == [extra[0]] + extra[1..][..m - 1];
        TotalAppends([extra[0]], extra[1..][..m - 1], files);
      }
    }
  }

  /** Sizes count every candidate once: aged rows, taken rows, listed and skipped rows add up. */
  lemma CandidatesAddUp(p: Plan, files: Files, sizes: Files)
    ensures Total(Candidates(p, files), sizes) == Total(Filter(p.rows, Aged(p.cutoff)), sizes) + Total(Taken(p, files), sizes)
    ensures Total(Candidates(p, files), sizes) == Total(Listed(p, files), sizes) + Total(Skipped(p, files), sizes)
  {
    var aged, taken := Filter(p.rows, Aged(p.cutoff)), Taken(p, files);
    TotalAppends(aged, taken, sizes);
    SortPermutes(aged + taken, ByTime);
    TotalPermutes(aged + taken, Candidates(p, files), sizes);
    FilterSplits(Candidates(p, files), Busy(p.env), sizes);
  }

  lemma RowsAddUp(p: Plan, sizes: Files)
    ensures Total(p.rows, sizes) == Total(Filter(p.rows, Aged(p.cutoff)), sizes) + Total(Extra(p), sizes)
  {
    FilterSplits(p.rows, Aged(p.cutoff), sizes);
    SortPermutes(Filter(p.rows, Not(Aged(p.cutoff))), ByText);
    TotalPermutes(Filter(p.rows, Not(Aged(p.cutoff))), Extra(p), sizes);
  }

  lemma PrefixCounts(rows: seq<Artifact>, n: nat, a: Artifact)
    requires n <= |rows|
    ensures multiset(rows[..n])[a] <= multiset(rows)[a]
  {
    assert rows == rows[..n] + rows[n..];
  }

  /** How often a row is a candidate: once if it is stored and aged or taken. */
  lemma CandidateCounts(p: Plan, files: Files, a: Artifact)
    ensures multiset(Candidates(p, files))[a] == multiset(Filter(p.rows, Aged(p.cutoff)))[a] + multiset(Taken(p, files))[a]
    ensures multiset(Taken(p, files))[a] <= if Passes(a, Aged(p.cutoff)) then 0 else multiset(p.rows)[a]
  {
    var aged, young, taken := Filter(p.rows, Aged(p.cutoff)), Filter(p.rows, Not(Aged(p.cutoff))), Taken(p, files);
    SortPermutes(aged + taken, ByTime);
    FilterCounts(p.rows, Not(Aged(p.cutoff)), a);
    SortPermutes(young, ByText);
    PrefixCounts(Extra(p), |taken|, a);
    hide Filter, Sorted, TakeCount, Total;
  }

  lemma InCounts(rows: seq<Artifact>, a: Artifact)
    ensures a in rows <==> multiset(rows)[a] > 0
  {
    assert a in rows <==> a in multiset(rows);
  }

  /** No row is listed more often than it is stored. */
  lemma ListedOnce(p: Plan, files: Files, a: Artifact)
    ensures multiset(Listed(p, files))[a] <= multiset(p.rows)[a]
    ensures a in Listed(p, files) <==>
              a in p.rows && (Passes(a, Aged(p.cutoff)) || a in Taken(p, files)) && !ActiveRun(p.env, a.run)
  {
    CandidateCounts(p, files, a);
    FilterCounts(p.rows, Aged(p.cutoff), a);
    FilterCounts(Candidates(p, files), Not(Busy(p.env)), a);
    InCounts(Listed(p, files), a);
    InCounts(Taken(p, files), a);
    InCounts(p.rows, a);
    hide Filter, Candidates, Taken;
  }

  /** The rows split into those listed and those not listed. */
  lemma RowsSplit(p: Plan, files: Files, sizes: Files)
    requires UniqueIds(p.rows)
    ensures Total(p.rows, sizes) == Total(Listed(p, files), sizes) + Total(Unlisted(p, files), sizes)
  {
    var listed, unlisted := Listed(p, files), Unlisted(p, files);
    forall a: Artifact
      ensures multiset(p.rows)[a] == multiset(listed + unlisted)[a]
    {
      ListedOnce(p, files, a);
      UniqueCounts(p.rows, a);
      FilterCounts(p.rows, Not(Among(listed)), a);
      assert a in listed <==> a in multiset(listed);
    }
    TotalAppends(listed, unlisted, sizes);
    TotalPermutes(p.rows, listed + unlisted, sizes);
  }

  /**
   After a pass the rows not listed as deleted hold at most the cap plus what was skipped as
   active.
   */
  lemma ByteBound(p: Plan, files: Files)
    requires UniqueIds(p.rows)
    ensures Total(Unlisted(p, files), files) <= (if p.cap < 0 then 0 else p.cap) + Total(Skipped(p, files), files)
  {
    var total := Total(p.rows, files);
    RowsSplit(p, files, files);
    CandidatesAddUp(p, files, files);
    RowsAddUp(p, files);
    var n := TakeCount(Extra(p), files, total, p.cap);
    TakeIsLeast(Extra(p), files, total, p.cap, 0);
    assert Extra(p)[..|Extra(p)|] == Extra(p);
  }

  // --- A second pass

  lemma {:induction false} TotalShrinks(rows: seq<Artifact>, files: Files, later: Files)
    requires forall path :: path in later ==> path in files && later[path] <= files[path]
    ensures Total(rows, later) <= Total(rows, files)
  {
    if |rows| > 0 {
      TotalShrinks(rows[1..], files, later);
    }
  }

  /** With smaller files the cap takes no row it did not take before. */
  lemma TakesNoMore(p: Plan, files: Files, later: Files)
    requires forall path :: path in later ==> path in files && later[path] <= files[path]
    ensures Taken(p, later) <= Taken(p, files)
  {
    var extra := Extra(p);
    var aged := Filter(p.rows, Aged(p.cutoff));
    var before, after := Total(p.rows, files), Total(p.rows, later);
    var n := TakeCount(extra, files, before, p.cap);
    TotalShrinks(p.rows, files, later);
    TakeIsLeast(extra, files, before, p.cap, n);
    TakeIsLeast(extra, later, after, p.cap, n);
    if n < |extra| {
      RowsAddUp(p, files);
      RowsAddUp(p, later);
      assert extra == extra[..n] + extra[n..];
      TotalAppends(extra[..n], extra[n..], files);
      TotalAppends(extra[..n], extra[n..], later);
      TotalShrinks(aged, files, later);
      TotalShrinks(extra[n..], files, later);
    }
  }

  lemma {:induction false} TotalOfGone(rows: seq<Artifact>, files: Files)
    requires forall a :: a in rows ==> Size(files, a) == 0
    ensures Total(rows, files) == 0
  {
    if |rows| > 0 {
      TotalOfGone(rows[1..], files);
    }
  }

  /** A second pass with the same clock, rows and sessions frees nothing. */
  lemma SecondPassFreesNothing(p: Plan, files: Files)
    ensures var later := Unlinked(files, Listed(p, files)); Total(Listed(p, later), later) == 0
  {
    var listed := Listed(p, files);
    var later := Unlinked(files, listed);
    TakesNoMore(p, files, later);
    forall a | a in Listed(p, later)
      ensures Size(later, a) == 0
    {
      ListedOnce(p, later, a);
      ListedOnce(p, files, a);
      var i :| 0 <= i < |listed| && listed[i] == a;
    }
    TotalOfGone(Listed(p, later), later);
  }

  // --- Oldest first

  lemma {:induction false} TextLeTotal(a: string, b: string)
    ensures TextLe(a, b) || TextLe(b, a)
  {
    if |a| > 0 && |b| > 0 {
      TextLeTotal(a[1..], b[1..]);
    }
  }

  lemma {:induction false} TextLeTransitive(a: string, b: string, c: string)
    requires TextLe(a, b) && TextLe(b, c)
    ensures TextLe(a, c)
  {
    if |a| > 0 && |b| > 0 && |c| > 0 && a[0] == b[0] == c[0] {
      TextLeTransitive(a[1..], b[1..], c[1..]);
    }
  }

  /** The rows with the same key as `x`, in their order. */
  function Alike(rows: seq<Artifact>, x: Artifact, key: Key): seq<Artifact> {
    if |rows| == 0 then []
    else (if Le(rows[0], x, key) && Le(x, rows[0], key) then [rows[0]] else []) + Alike(rows[1..], x, key)
  }

  lemma {:induction false} InsertKeepsAlike(a: Artifact, rows: seq<Artifact>, x: Artifact, key: Key)
    ensures Alike(Insert(a, rows, key), x, key) == Alike([a], x, key) + Alike(rows, x, key)
  {
    hide Le;
    assert [a][1..] == [];
    if |rows| == 0 || Le(a, rows[0], key) {
      assert ([a] + rows)[1..] == rows;
    } else {
      InsertKeepsAlike(a, rows[1..], x, key);
      if Le(a, x, key) && Le(x, rows[0], key) {
        LeTransitive(a, x, rows[0], key);
      }
      assert Alike([a], x, key) == [] || Alike(rows, x, key) == Alike(rows[1..], x, key);
      assert ([rows[0]] + Insert(a, rows[1..], key))[1..] == Insert(a, rows[1..], key);
    }
  }

  /** The sort is stable: rows with equal keys stay in the order in which they are stored. */
  lemma {:induction false} SortIsStable(rows: seq<Artifact>, x: Artifact, key: Key)
    ensures Alike(Sorted(rows, key), x, key) == Alike(rows, x, key)
  {
    if |rows| > 0 {
      SortIsStable(rows[1..], x, key);
      InsertKeepsAlike(rows[0], Sorted(rows[1..], key), x, key);
      assert [rows[0]][1..] == [];
    }
  }

  /** Dictionary order: a beginning comes first, otherwise the first difference decides. */
  ghost predicate Precedes(a: string, b: string) {
    a <= b || exists n :: 0 <= n < |a| && n < |b| && FirstDifference(a, b, n) && a[n] < b[n]
  }

  predicate FirstDifference(a: string, b: string, n: nat)
    requires n < |a| && n < |b|
  {
    a[n] != b[n] && forall i :: 0 <= i < n ==> a[i] == b[i]
  }

  lemma {:induction false} TextLeIsDictionary(a: string, b: string)
    ensures TextLe(a, b) <==> Precedes(a, b)
  {
    if |a| > 0 && |b| > 0 {
      if a[0] != b[0] {
        assert FirstDifference(a, b, 0);
      } else {
        TextLeIsDictionary(a[1..], b[1..]);
        assert a <= b <==> a[1..] <= b[1..];
        if n :| 0 <= n < |a[1..]| && n < |b[1..]| && FirstDifference(a[1..], b[1..], n) && a[1..][n] < b[1..][n] {
          forall i | 0 <= i < n + 1 ensures a[i] == b[i] {
            assert i > 0 ==> a[1..][i - 1] == b[1..][i - 1];
          }
          assert FirstDifference(a, b, n + 1);
        }
        if n :| 0 <= n < |a| && n < |b| && FirstDifference(a, b, n) && a[n] < b[n] {
          assert FirstDifference(a[1..], b[1..], n - 1);
        }
      }
    }
  }

  predicate Ordered(rows: seq<Artifact>, key: Key) {
    forall i, j :: 0 <= i < j < |rows| ==> Le(rows[i], rows[j], key)
  }

  lemma LeTotal(a: Artifact, b: Artifact, key: Key)
    ensures Le(a, b, key) || Le(b, a, key)
  {
    TextLeTotal(a.created, b.created);
  }

  lemma LeTransitive(a: Artifact, b: Artifact, c: Artifact, key: Key)
    requires Le(a, b, key) && Le(b, c, key)
    ensures Le(a, c, key)
  {
    if key.ByText? {
      TextLeTransitive(a.created, b.created, c.created);
    }
  }

  lemma {:induction false} InsertOrders(a: Artifact, rows: seq<Artifact>, key: Key)
    requires Ordered(rows, key)
    ensures Ordered(Insert(a, rows, key), key)
  {
    hide Le;
    if |rows| == 0 {
    } else if Le(a, rows[0], key) {
      forall i | 0 <= i < |rows|
        ensures Le(a, rows[i], key)
      {
        if i > 0 {
          LeTransitive(a, rows[0], rows[i], key);
        }
      }
    } else {
      var rest := Insert(a, rows[1..], key);
      InsertOrders(a, rows[1..], key);
      forall i | 0 <= i < |rest|
        ensures Le(rows[0], rest[i], key)
      {
        LeTotal(a, rows[0], key);
        InsertCounts(a, rows[1..], key);
        assert rest[i] in multiset(rest);
        assert rest[i] == a || rest[i] in rows[1..];
      }
    }
  }

  lemma {:induction false} SortOrders(rows: seq<Artifact>, key: Key)
    ensures Ordered(Sorted(rows, key), key)
  {
    if |rows| > 0 {
      SortOrders(rows[1..], key);
      InsertOrders(rows[0], Sorted(rows[1..], key), key);
    }
  }

  /**
   The byte cap takes oldest first and no more than it needs: what it leaves is not older than
   what it takes, and without the last row taken the rows would still be over the cap.
   */
  lemma CapTakesOldest(p: Plan, files: Files, taken: Artifact, left: Artifact)
    requires taken in Taken(p, files) && left in Extra(p)[|Taken(p, files)|..]
    ensures Precedes(taken.created, left.created)
    ensures Total(p.rows, files) - Total(Extra(p)[..|Taken(p, files)| - 1], files) > p.cap
  {
    var n := |Taken(p, files)|;
    SortOrders(Filter(p.rows, Not(Aged(p.cutoff))), ByText);
    FrontIsLess(Extra(p), n, taken, left);
    TextLeIsDictionary(taken.created, left.created);
    TakeIsLeast(Extra(p), files, Total(p.rows, files), p.cap, n - 1);
  }

  lemma FrontIsLess(rows: seq<Artifact>, n: nat, a: Artifact, b: Artifact)
    requires Ordered(rows, ByText) && n <= |rows| && a in rows[..n] && b in rows[n..]
    ensures TextLe(a.created, b.created)
  {
    var i :| 0 <= i < n && rows[i] == a;
    var j :| n <= j < |rows| && rows[j] == b;
    assert Le(rows[i], rows[j], ByText);
  }

  lemma {:induction false} FilterKeepsOrder(rows: seq<Artifact>, test: Test, key: Key)
    requires Ordered(rows, key)
    ensures Ordered(Filter(rows, test), key)
  {
    if |rows| > 0 {
      var rest := Filter(rows[1..], test);
      FilterKeepsOrder(rows[1..], test, key);
      forall i | 0 <= i < |rest| ensures Le(rows[0], rest[i], key) {
        FilterGrows(rows[1..], test, rest[i]);
        var j :| 0 <= j < |rows[1..]| && rows[1..][j] == rest[i];
        assert Le(rows[0], rows[j + 1], key);
      }
    }
  }

  /** The report lists deletions by creation time, those without a readable time as if made at zero. */
  lemma ReportIsByTime(p: Plan, files: Files, i: nat, j: nat)
    requires i < j < |Listed(p, files)|
    ensures var a, b := Listed(p, files)[i].time, Listed(p, files)[j].time;
            (if a.Some? then a.value else 0.0) <= (if b.Some? then b.value else 0.0)
  {
    SortOrders(Filter(p.rows, Aged(p.cutoff)) + Taken(p, files), ByTime);
    FilterKeepsOrder(Candidates(p, files), Not(Busy(p.env)), ByTime);
    assert Le(Listed(p, files)[i], Listed(p, files)[j], ByTime);
  }

  /** Totals add up file sizes, and a missing file counts nothing. */
  lemma TotalCounts(rows: seq<Artifact>, a: Artifact, files: Files)
    ensures Total([], files) == 0
    ensures Total(rows + [a], files) == Total(rows, files) + (if a.path in files then files[a.path] else 0)
  {
    TotalAppends(rows, [a], files);
  }

  /** A live pass removes the files of the listed rows and touches no other. */
  lemma UnlinksExactly(p: Plan, files: Files, path: string)
    ensures var later := Unlinked(files, Listed(p, files));
            && (path in later <==> path in files && forall a :: a in Listed(p, files) ==> a.path != path)
            && (path in later ==> later[path] == files[path])
  {
    var listed := Listed(p, files);
    if path in files && !(path in Unlinked(files, listed)) {
      var i :| 0 <= i < |listed| && listed[i].path == path;
      assert listed[i] in listed;
    }
  }

  // --- Protection of active sessions

  /** The session is active and works on the run the artifact belongs to. */
  predicate Owned(env: Env, a: Artifact, s: Session) {
    s in env.sessions && ActiveStatus(s.status) && s.run == a.run
  }

  /**
   An artifact of an active session is spared whenever the run has a worktree that leads back to
   the task of the session.
   */
  lemma OwnedIsSpared(p: Plan, files: Files, a: Artifact, s: Session)
    requires Owned(p.env, a, s) && a.run !in p.env.unreadable
    requires TaskOfRun(p.env.worktrees, a.run) == Some(s.task)
    ensures a !in Listed(p, files)
  {
    ListedOnce(p, files, a);
    var i :| 0 <= i < |p.env.sessions| && p.env.sessions[i] == s;
    assert ActiveTask(p.env, s.task);
  }

  /**
   An active session of the run is found: the run can be looked up, and a session of the task of its
   newest worktree row (any session if that task has no id) is created, starting, running, waiting for
   a reply or verifying.
   */
  ghost predicate Found(env: Env, run: string) {
    && run !in env.unreadable
    && exists i, j :: 0 <= i < |env.worktrees| && 0 <= j < |env.sessions| && Leads(env, run, i, j)
  }

  predicate Leads(env: Env, run: string, i: nat, j: nat)
    requires i < |env.worktrees| && j < |env.sessions|
  {
    && IsNewest(env.worktrees, run, i)
    && (env.worktrees[i].task == "" || env.sessions[j].task == env.worktrees[i].task)
    && env.sessions[j].status in {Created, Starting, Running, WaitingForReply, Verifying}
  }

  predicate IsNewest(worktrees: seq<Worktree>, run: string, i: nat)
    requires i < |worktrees|
  {
    worktrees[i].run == run && forall j :: 0 <= j < i ==> worktrees[j].run != run
  }

  lemma {:induction false} TaskIsNewest(worktrees: seq<Worktree>, run: string, i: nat)
    requires i < |worktrees| && IsNewest(worktrees, run, i)
    ensures TaskOfRun(worktrees, run) == Some(worktrees[i].task)
  {
    if i > 0 {
      TaskIsNewest(worktrees[1..], run, i - 1);
    }
  }

  lemma {:induction false} NewestOfTask(worktrees: seq<Worktree>, run: string) returns (i: nat)
    requires TaskOfRun(worktrees, run).Some?
    ensures i < |worktrees| && IsNewest(worktrees, run, i) && TaskOfRun(worktrees, run).value == worktrees[i].task
  {
    if worktrees[0].run == run {
      i := 0;
    } else {
      i := NewestOfTask(worktrees[1..], run);
      i := i + 1;
      forall j | 0 <= j < i ensures worktrees[j].run != run {
        assert j > 0 ==> worktrees[1..][j - 1] == worktrees[j];
      }
    }
  }

  /**
   Belonging to an active session protects an artifact that is aged or taken exactly if the session
   is found by way of the worktree of its run.
   */
  lemma OwnedIsListedExactly(p: Plan, files: Files, a: Artifact, s: Session)
    requires Owned(p.env, a, s) && a in p.rows && ((a.time.Some? && a.time.value <= p.cutoff) || a in Taken(p, files))
    ensures a in Listed(p, files) <==> !Found(p.env, a.run)
  {
    ListedExactly(p, files, a);
  }

  /** The check before a deletion finds a session exactly if there is one to find. */
  lemma ActiveExactly(env: Env, run: string)
    ensures ActiveRun(env, run) <==> Found(env, run)
  {
    if ActiveRun(env, run) {
      var i := NewestOfTask(env.worktrees, run);
      var task := env.worktrees[i].task;
      var j :| 0 <= j < |env.sessions| && (task == "" || env.sessions[j].task == task) && ActiveStatus(env.sessions[j].status);
      assert Leads(env, run, i, j);
    }
    if Found(env, run) {
      var i, j :| 0 <= i < |env.worktrees| && 0 <= j < |env.sessions| && Leads(env, run, i, j);
      TaskIsNewest(env.worktrees, run, i);
      assert ActiveStatus(env.sessions[j].status);
    }
  }

  /** A stored row is listed if and only if its time has come or the cap took it, and no active session of its run is found. */
  lemma ListedExactly(p: Plan, files: Files, a: Artifact)
    ensures a in Listed(p, files) <==>
            && a in p.rows && ((a.time.Some? && a.time.value <= p.cutoff) || a in Taken(p, files))
            && !Found(p.env, a.run)
  {
    ListedOnce(p, files, a);
    ActiveExactly(p.env, a.run);
  }

  /** Such artifacts exist: one of a running session without a worktree row, a day past the cutoff. */
  lemma NoWorktreeNoProtection(files: Files)
    ensures var a := Artifact("artifact", "run", "log.txt", "1970-01-01T00:00:00+00:00", Some(0.0));
            var s := Session("run", "task", Running);
            var p := Plan([a], Env([], [s], {}), 86400.0, 0);
            Owned(p.env, a, s) && a in Listed(p, files)
  {
    var a := Artifact("artifact", "run", "log.txt", "1970-01-01T00:00:00+00:00", Some(0.0));
    var s := Session("run", "task", Running);
    OwnedIsListedExactly(Plan([a], Env([], [s], {}), 86400.0, 0), files, a, s);
  }

  // --- The pass itself

  datatype Report = Report(dryRun: bool, deleted: seq<Artifact>, skipped: nat, freed: nat, before: nat)

  function Get(sizes: map<string, nat>, id: string): nat {
    if id in sizes then sizes[id] else 0
  }

  lemma TotalOfPrefix(rows: seq<Artifact>, i: nat, files: Files)
    requires i < |rows|
    ensures Total(rows[..i + 1], files) == Total(rows[..i], files) + Size(files, rows[i])
  {
    assert rows[..i + 1] == rows[..i] + [rows[i]];
    TotalAppends(rows[..i], [rows[i]], files);
  }

  lemma CandidateIsStored(p: Plan, files: Files, a: Artifact)
    requires a in Candidates(p, files)
    ensures a in p.rows
  {
    var aged, young := Filter(p.rows, Aged(p.cutoff)), Filter(p.rows, Not(Aged(p.cutoff)));
    SortPermutes(aged + Taken(p, files), ByTime);
    assert a in multiset(Candidates(p, files));
    SortPermutes(young, ByText);
    if a in Extra(p) {
      assert a in multiset(Extra(p));
    }
    FilterGrows(p.rows, Aged(p.cutoff), a);
    FilterGrows(p.rows, Not(Aged(p.cutoff)), a);
  }

  class Disk {
    var files: Files

    constructor (initial: Files)
      ensures files == initial
    {
      files := initial;
    }

    method Measure(rows: seq<Artifact>) returns (sizes: map<string, nat>, total: nat)
      requires UniqueIds(rows)
      ensures forall i :: 0 <= i < |rows| ==> rows[i].id in sizes && sizes[rows[i].id] == Size(files, rows[i])
      ensures total == Total(rows, files)
    {
      sizes, total := map[], 0;
      for i := 0 to |rows|
        invariant forall j :: 0 <= j < i ==> rows[j].id in sizes && sizes[rows[j].id] == Size(files, rows[j])
        invariant total == Total(rows[..i], files)
      {
        var size := Size(files, rows[i]);
        sizes, total := sizes[rows[i].id := size], total + size;
        TotalOfPrefix(rows, i, files);
      }
      assert rows[..|rows|] == rows;
    }

    method ByAge(rows: seq<Artifact>, cutoff: real) returns (candidates: seq<Artifact>, ids: set<string>)
      ensures candidates == Filter(rows, Aged(cutoff))
      ensures ids == set a | a in candidates :: a.id
    {
      candidates, ids := [], {};
      for i := 0 to |rows|
        invariant candidates + Filter(rows[i..], Aged(cutoff)) == Filter(rows, Aged(cutoff))
        invariant ids == set a | a in candidates :: a.id
      {
        assert rows[i..][1..] == rows[i + 1..];
        if rows[i].time.Some? && rows[i].time.value <= cutoff {
          candidates, ids := candidates + [rows[i]], ids + {rows[i].id};
        }
      }
    }

    method NotYetChosen(rows: seq<Artifact>, ids: set<string>, cutoff: real) returns (young: seq<Artifact>)
      requires forall i :: 0 <= i < |rows| ==> (rows[i].id in ids <==> Passes(rows[i], Aged(cutoff)))
      ensures young == Filter(rows, Not(Aged(cutoff)))
    {
      young := [];
      for i := 0 to |rows|
        invariant young + Filter(rows[i..], Not(Aged(cutoff))) == Filter(rows, Not(Aged(cutoff)))
      {
        assert rows[i..][1..] == rows[i + 1..];
        if rows[i].id !in ids {
          young := young + [rows[i]];
        }
      }
    }

    method ByCap(extra: seq<Artifact>, sizes: map<string, nat>, total: nat, cap: int) returns (taken: seq<Artifact>)
      requires forall i :: 0 <= i < |extra| ==> Get(sizes, extra[i].id) == Size(files, extra[i])
      ensures taken == extra[..TakeCount(extra, files, total, cap)]
    {
      var bytes: int, i := total, 0;
      while i < |extra| && bytes > cap
        invariant 0 <= i <= |extra|
        invariant i + TakeCount(extra[i..], files, bytes, cap) == TakeCount(extra, files, total, cap)
      {
        assert extra[i..][1..] == extra[i + 1..];
        bytes, i := bytes - Get(sizes, extra[i].id), i + 1;
      }
      taken := extra[..i];
    }

    /** What is listed, what is counted and what is unlinked, candidate by candidate. */
    method DeleteEach(candidates: seq<Artifact>, env: Env, sizes: map<string, nat>, dryRun: bool)
      returns (deleted: seq<Artifact>, skipped: nat, freed: nat)
      requires forall i :: 0 <= i < |candidates| ==> Get(sizes, candidates[i].id) == Size(files, candidates[i])
      modifies this
      ensures deleted == Filter(candidates, Not(Busy(env)))
      ensures skipped == |Filter(candidates, Busy(env))|
      ensures freed == Total(deleted, old(files))
      ensures files == if dryRun then old(files) else Unlinked(old(files), deleted)
    {
      deleted, skipped, freed := [], 0, 0;
      for i := 0 to |candidates|
        invariant deleted + Filter(candidates[i..], Not(Busy(env))) == Filter(candidates, Not(Busy(env)))
        invariant skipped + |Filter(candidates[i..], Busy(env))| == |Filter(candidates, Busy(env))|
        invariant freed == Total(deleted, old(files))
        invariant files == if dryRun then old(files) else Unlinked(old(files), deleted)
      {
        var a := candidates[i];
        assert candidates[i..][1..] == candidates[i + 1..];
        if ActiveRun(env, a.run) {
          skipped := skipped + 1;
        } else {
          UnlinkOne(old(files), deleted, a);
          TotalAppends(deleted, [a], old(files));
          deleted, freed := deleted + [a], freed + Get(sizes, a.id);
          if !dryRun {
            files := files - {a.path};
          }
        }
      }
    }

    /** One pass; a dry run reports the same and leaves the disk alone. */
    method RunCleanup(p: Plan, dryRun: bool) returns (report: Report)
      requires UniqueIds(p.rows)
      modifies this
      ensures report.dryRun == dryRun && report.before == Total(p.rows, old(files))
      ensures report.deleted == Listed(p, old(files)) && report.skipped == |Skipped(p, old(files))|
      ensures report.freed == Total(report.deleted, old(files))
      ensures files == if dryRun then old(files) else Unlinked(old(files), report.deleted)
    {
      var sizes, total := Measure(p.rows);
      var aged, ids := ByAge(p.rows, p.cutoff);
      var candidates := aged;
      if total > p.cap {
        IdsTell(p, ids);
        var young := NotYetChosen(p.rows, ids, p.cutoff);
        var extra := Sorted(young, ByText);
        assert extra == Extra(p);
        ExtraIsMeasured(p, files, sizes);
        var taken := ByCap(extra, sizes, total, p.cap);
        candidates := candidates + taken;
      }
      assert candidates == aged + Taken(p, files);
      candidates := Sorted(candidates, ByTime);
      assert candidates == Candidates(p, files);
      CandidatesAreMeasured(p, files, sizes);
      var deleted, skipped, freed := DeleteEach(candidates, p.env, sizes, dryRun);
      report := Report(dryRun, deleted, skipped, freed, total);
    }
  }

  lemma UnlinkOne(files: Files, listed: seq<Artifact>, a: Artifact)
    ensures Unlinked(files, listed) - {a.path} == Unlinked(files, listed + [a])
  {
    var l := listed + [a];
    forall path | path in files
      ensures (forall i :: 0 <= i < |l| ==> l[i].path != path)
           <==> (forall i :: 0 <= i < |listed| ==> listed[i].path != path) && a.path != path
    {
      assert l[|listed|] == a;
      assert forall i :: 0 <= i < |listed| ==> l[i] == listed[i];
    }
  }

  predicate Measured(rows: seq<Artifact>, files: Files, sizes: map<string, nat>) {
    forall i :: 0 <= i < |rows| ==> rows[i].id in sizes && sizes[rows[i].id] == Size(files, rows[i])
  }

  /** Since ids are unique, the id of a row tells whether the row is already a candidate. */
  lemma IdsTell(p: Plan, ids: set<string>)
    requires UniqueIds(p.rows) && ids == set a | a in Filter(p.rows, Aged(p.cutoff)) :: a.id
    ensures forall i :: 0 <= i < |p.rows| ==> (p.rows[i].id in ids <==> Passes(p.rows[i], Aged(p.cutoff)))
  {
    forall i | 0 <= i < |p.rows|
      ensures p.rows[i].id in ids <==> Passes(p.rows[i], Aged(p.cutoff))
    {
      FilterGrows(p.rows, Aged(p.cutoff), p.rows[i]);
      if p.rows[i].id in ids {
        var a :| a in Filter(p.rows, Aged(p.cutoff)) && a.id == p.rows[i].id;
        FilterGrows(p.rows, Aged(p.cutoff), a);
      }
    }
  }

  lemma ExtraIsMeasured(p: Plan, files: Files, sizes: map<string, nat>)
    requires Measured(p.rows, files, sizes)
    ensures forall i :: 0 <= i < |Extra(p)| ==> Get(sizes, Extra(p)[i].id) == Size(files, Extra(p)[i])
  {
    var young := Filter(p.rows, Not(Aged(p.cutoff)));
    forall i | 0 <= i < |Extra(p)|
      ensures Get(sizes, Extra(p)[i].id) == Size(files, Extra(p)[i])
    {
      SortPermutes(young, ByText);
      assert Extra(p)[i] in multiset(Extra(p));
      FilterGrows(p.rows, Not(Aged(p.cutoff)), Extra(p)[i]);
    }
  }

  lemma CandidatesAreMeasured(p: Plan, files: Files, sizes: map<string, nat>)
    requires Measured(p.rows, files, sizes)
    ensures var c := Candidates(p, files); forall i :: 0 <= i < |c| ==> Get(sizes, c[i].id) == Size(files, c[i])
  {
    var c := Candidates(p, files);
    forall i | 0 <= i < |c|
      ensures Get(sizes, c[i].id) == Size(files, c[i])
    {
      CandidateIsStored(p, files, c[i]);
    }
  }
}
