/** The per-repository view of a round's tasks (viewmodel.ts). */
module Aggregation {
  import opened Common

  datatype Status = Pending | Running | Repairing | Blocked | Succeeded | Failed

  datatype Evidence = Evidence(verified: bool, blockers: seq<string>, summaryText: Option<string>)

  datatype Task = Task(repository: string, status: Status, evidence: Option<Evidence>)

  /** A task whose agent claimed a result that nothing confirms, failures aside. */
  predicate MarksUnverified(t: Task) {
    t.evidence.Some? && !t.evidence.value.verified && !t.status.Failed?
  }

  function FailureReason(t: Task): Option<string> {
    if t.evidence.Some? && t.status.Failed?
       && t.evidence.value.summaryText.Some? && t.evidence.value.summaryText.value != ""
    then t.evidence.value.summaryText else None
  }

  datatype Counted = Tasks | Unverified | Blockers

  function Worth(t: Task, c: Counted, repository: string): nat {
    if t.repository != repository then 0 else
      match c
      case Tasks => 1
      case Unverified => if MarksUnverified(t) then 1 else 0
      case Blockers => if MarksUnverified(t) then |t.evidence.value.blockers| else 0
  }

  function Tally(ts: seq<Task>, c: Counted, repository: string): nat {
    if ts == [] then 0 else Tally(ts[..|ts| - 1], c, repository) + Worth(ts[|ts| - 1], c, repository)
  }

  function StatusesOf(ts: seq<Task>, repository: string): set<Status> {
    set t | t in ts && t.repository == repository :: t.status
  }

  function Reasons(ts: seq<Task>, repository: string): seq<string> {
    if ts == [] then [] else
      var last := ts[|ts| - 1];
      Reasons(ts[..|ts| - 1], repository)
      + if last.repository == repository && FailureReason(last).Some? then [FailureReason(last).value] else []
  }

  function Repositories(ts: seq<Task>): set<string> {
    set t | t in ts :: t.repository
  }

  datatype View = View(
    byRepository: map<string, Option<Status>>,
    taskCount: map<string, nat>,
    unverifiedCount: map<string, nat>,
    blockerCount: map<string, nat>,
    failureReasons: map<string, seq<string>>)

  function Get(m: map<string, nat>, k: string): nat {
    if k in m then m[k] else 0
  }

  function GetList(m: map<string, seq<string>>, k: string): seq<string> {
    if k in m then m[k] else []
  }

  /** The view a list of tasks stands for. */
  ghost predicate Shows(v: View, ts: seq<Task>) {
    && v.byRepository.Keys == Repositories(ts) == v.taskCount.Keys
    && (forall r, s | r in Repositories(ts) ::
          v.byRepository[r] == Some(s) <==> forall t | t in ts && t.repository == r :: t.status == s)
    && (forall r :: Get(v.taskCount, r) == Tally(ts, Tasks, r))
    && (forall r :: Get(v.unverifiedCount, r) == Tally(ts, Unverified, r))
    && (forall r :: Get(v.blockerCount, r) == Tally(ts, Blockers, r))
    && (forall r :: GetList(v.failureReasons, r) == Reasons(ts, r))
  }

  method DagExecution(ts: seq<Task>) returns (v: View)
    ensures Shows(v, ts)
    ensures Figures(v, ts)
  {
    hide Figures;
    var seen := GatherStatuses(ts);
    var byRepository: map<string, Option<Status>> := map r | r in seen :: OnlyOne(seen[r]);
    var taskCount := CountTasks(ts);
    var unverified, blockers, reasons := CountReports(ts);
    v := View(byRepository, taskCount, unverified, blockers, reasons);
    forall r, s | r in Repositories(ts)
      ensures v.byRepository[r] == Some(s) <==> forall t | t in ts && t.repository == r :: t.status == s
    {
      assert v.byRepository[r] == OnlyOne(StatusesOf(ts, r));
      OneStatus(ts, r, s);
    }
    ShowsFigures(v, ts);
  }

  method CountTasks(ts: seq<Task>) returns (taskCount: map<string, nat>)
    ensures taskCount.Keys == Repositories(ts)
    ensures forall r :: Get(taskCount, r) == Tally(ts, Tasks, r)
  {
    taskCount := map[];
    for i := 0 to |ts|
      invariant taskCount.Keys == Repositories(ts[..i])
      invariant forall r :: Get(taskCount, r) == Tally(ts[..i], Tasks, r)
    {
      TallyNext(ts, i);
      taskCount := taskCount[ts[i].repository := Get(taskCount, ts[i].repository) + 1];
    }
    assert ts[..|ts|] == ts;
  }

  method CountReports(ts: seq<Task>)
    returns (unverified: map<string, nat>, blockers: map<string, nat>, reasons: map<string, seq<string>>)
    ensures Counts(unverified, ts, Unverified) && Counts(blockers, ts, Blockers) && Lists(reasons, ts)
  {
    unverified, blockers, reasons := map[], map[], map[];
    for i := 0 to |ts|
      invariant Counts(unverified, ts[..i], Unverified)
      invariant Counts(blockers, ts[..i], Blockers)
      invariant Lists(reasons, ts[..i])
    {
      var t := ts[i];
      CountsNext(unverified, ts, i, Unverified);
      CountsNext(blockers, ts, i, Blockers);
      ListsNext(reasons, ts, i);
      if FailureReason(t).Some? {
        reasons := reasons[t.repository := GetList(reasons, t.repository) + [FailureReason(t).value]];
      }
      if MarksUnverified(t) {
        unverified := unverified[t.repository := Get(unverified, t.repository) + 1];
        blockers := blockers[t.repository := Get(blockers, t.repository) + |t.evidence.value.blockers|];
      }
    }
    assert ts[..|ts|] == ts;
  }

  ghost predicate Counts(m: map<string, nat>, ts: seq<Task>, c: Counted) {
    forall r :: Get(m, r) == Tally(ts, c, r)
  }

  ghost predicate Lists(m: map<string, seq<string>>, ts: seq<Task>) {
    forall r :: GetList(m, r) == Reasons(ts, r)
  }

  lemma CountsNext(m: map<string, nat>, ts: seq<Task>, i: nat, c: Counted)
    requires i < |ts| && Counts(m, ts[..i], c)
    ensures var q := ts[i].repository;
      && Counts(m[q := Get(m, q) + Worth(ts[i], c, q)], ts[..i + 1], c)
      && (Worth(ts[i], c, q) == 0 ==> Counts(m, ts[..i + 1], c))
  {
    TallyNext(ts, i);
  }

  lemma ListsNext(m: map<string, seq<string>>, ts: seq<Task>, i: nat)
    requires i < |ts| && Lists(m, ts[..i])
    ensures var q, reason := ts[i].repository, FailureReason(ts[i]);
      if reason.Some? then Lists(m[q := GetList(m, q) + [reason.value]], ts[..i + 1]) else Lists(m, ts[..i + 1])
  {
    var q, reason := ts[i].repository, FailureReason(ts[i]);
    var m' := if reason.Some? then m[q := GetList(m, q) + [reason.value]] else m;
    TallyNext(ts, i);
    forall r ensures GetList(m', r) == Reasons(ts[..i + 1], r) {
      assert GetList(m, r) == Reasons(ts[..i], r);
    }
  }

  method GatherStatuses(ts: seq<Task>) returns (seen: map<string, set<Status>>)
    ensures seen.Keys == Repositories(ts)
    ensures forall r | r in seen :: seen[r] == StatusesOf(ts, r)
  {
    seen := map[];
    for i := 0 to |ts|
      invariant seen.Keys == Repositories(ts[..i])
      invariant forall r | r in seen :: seen[r] == StatusesOf(ts[..i], r)
    {
      var bucket := if ts[i].repository in seen then seen[ts[i].repository] else {};
      assert ts[..i + 1] == ts[..i] + [ts[i]];
      assert bucket == StatusesOf(ts[..i], ts[i].repository);
      forall r ensures StatusesOf(ts[..i + 1], r)
          == StatusesOf(ts[..i], r) + if r == ts[i].repository then {ts[i].status} else {} {
      }
      seen := seen[ts[i].repository := bucket + {ts[i].status}];
    }
    assert ts[..|ts|] == ts;
  }

  /** The single element of a one-element set. */
  function OnlyOne(s: set<Status>): (o: Option<Status>)
    ensures forall x :: o == Some(x) <==> s == {x}
  {
    if |s| == 1 then
      var x :| x in s;
      assert s == {x} by { SubsetSize({x}, s); }
      Some(x)
    else
      assert forall x :: s == {x} ==> |s| == 1;
      None
  }

  lemma OneStatus(ts: seq<Task>, r: string, s: Status)
    requires r in Repositories(ts)
    ensures StatusesOf(ts, r) == {s} <==> forall t | t in ts && t.repository == r :: t.status == s
  {
    var t :| t in ts && t.repository == r;
    assert t.status in StatusesOf(ts, r);
    if StatusesOf(ts, r) == {s} {
      forall u | u in ts && u.repository == r ensures u.status == s {
        assert u.status in StatusesOf(ts, r);
      }
    }
  }

  lemma TallyNext(ts: seq<Task>, i: nat)
    requires i < |ts|
    ensures forall c, r :: Tally(ts[..i + 1], c, r) == Tally(ts[..i], c, r) + Worth(ts[i], c, r)
    ensures forall r :: Reasons(ts[..i + 1], r) ==
              if ts[i].repository == r && FailureReason(ts[i]).Some?
              then Reasons(ts[..i], r) + [FailureReason(ts[i]).value]
              else Reasons(ts[..i], r)
    ensures Repositories(ts[..i + 1]) == Repositories(ts[..i]) + {ts[i].repository}
  {
    assert ts[..i + 1][..i] == ts[..i];
    assert ts[..i + 1] == ts[..i] + [ts[i]];
  }

  // --- What the counts count ---------------------------------------------------------------

  /** The agent reports a result that nothing confirms, and the task has not failed. */
  predicate Unconfirmed(t: Task) {
    match t.evidence
    case None => false
    case Some(e) => !e.verified && t.status != Failed
  }

  ghost function TasksAt(ts: seq<Task>, r: string): set<nat> {
    set i: nat | i < |ts| && ts[i].repository == r
  }

  ghost function UnconfirmedAt(ts: seq<Task>, r: string): set<nat> {
    set i: nat | i < |ts| && ts[i].repository == r && Unconfirmed(ts[i])
  }

  predicate NamesBlocker(ts: seq<Task>, r: string, i: nat, j: nat) {
    i < |ts| && ts[i].repository == r && Unconfirmed(ts[i]) && j < |ts[i].evidence.value.blockers|
  }

  /** The blockers such tasks name, each by task and place. */
  ghost function BlockersAt(ts: seq<Task>, r: string): set<(nat, nat)> {
    set i: nat, j: nat | i < |ts| && Unconfirmed(ts[i]) && j < |ts[i].evidence.value.blockers|
                         && NamesBlocker(ts, r, i, j) :: (i, j)
  }

  lemma {:induction false} TasksCounted(ts: seq<Task>, r: string)
    ensures Tally(ts, Tasks, r) == |TasksAt(ts, r)|
  {
    if ts == [] {
      assert TasksAt(ts, r) == {};
    } else {
      var n := |ts| - 1;
      TasksCounted(ts[..n], r);
      assert TasksAt(ts, r) == TasksAt(ts[..n], r) + if ts[n].repository == r then {n} else {};
    }
  }

  lemma {:induction false} UnconfirmedCounted(ts: seq<Task>, r: string)
    ensures Tally(ts, Unverified, r) == |UnconfirmedAt(ts, r)|
  {
    if ts == [] {
      assert UnconfirmedAt(ts, r) == {};
    } else {
      var n := |ts| - 1;
      UnconfirmedCounted(ts[..n], r);
      assert MarksUnverified(ts[n]) == Unconfirmed(ts[n]);
      LastUnconfirmed(ts, r);
    }
  }

  lemma LastUnconfirmed(ts: seq<Task>, r: string)
    requires ts != []
    ensures |UnconfirmedAt(ts, r)| == |UnconfirmedAt(ts[..|ts| - 1], r)|
                                      + if ts[|ts| - 1].repository == r && Unconfirmed(ts[|ts| - 1]) then 1 else 0
  {
    hide Unconfirmed;
    var n := |ts| - 1;
    var before, all := UnconfirmedAt(ts[..n], r), UnconfirmedAt(ts, r);
    if ts[n].repository == r && Unconfirmed(ts[n]) {
      assert all == before + {n};
    } else {
      assert all == before;
    }
  }

  lemma {:induction false} BlockersCounted(ts: seq<Task>, r: string)
    ensures Tally(ts, Blockers, r) == |BlockersAt(ts, r)|
  {
    if ts == [] {
      assert BlockersAt(ts, r) == {};
    } else {
      var n := |ts| - 1;
      BlockersCounted(ts[..n], r);
      LastBlockers(ts, r);
    }
  }

  lemma LastBlockers(ts: seq<Task>, r: string)
    requires ts != []
    ensures |BlockersAt(ts, r)| == |BlockersAt(ts[..|ts| - 1], r)| + Worth(ts[|ts| - 1], Blockers, r)
  {
    var n := |ts| - 1;
    var before, all, own := BlockersAt(ts[..n], r), BlockersAt(ts, r), Row(n, Worth(ts[n], Blockers, r));
    forall x: (nat, nat) ensures x in all <==> x in before || x in own {
      var (i, j) := x;
      assert NamesBlocker(ts, r, i, j) <==> NamesBlocker(ts[..n], r, i, j) || x in own;
    }
    assert all == before + own;
    assert before !! own;
  }

  ghost function Row(n: nat, width: nat): (row: set<(nat, nat)>)
    ensures |row| == width
    ensures forall i: nat, j: nat :: (i, j) in row <==> i == n && j < width
  {
    if width == 0 then {} else Row(n, width - 1) + {(n, width - 1)}
  }

  /** The reasons shown for a repository: in task order, the summary of each failed task
      that has one to show. */
  ghost predicate ReasonsOf(ts: seq<Task>, r: string, at: seq<nat>, reasons: seq<string>) {
    && (forall i, j | 0 <= i < j < |at| :: at[i] < at[j])
    && (forall i | 0 <= i < |at| :: at[i] < |ts|)
    && (forall k: nat | k < |ts| :: k in at <==> ts[k].repository == r && ShownReason(ts[k]) != "")
    && |reasons| == |at|
    && (forall i | 0 <= i < |at| :: reasons[i] == ShownReason(ts[at[i]]))
  }

  /** What a failed task has to say, or nothing. */
  function ShownReason(t: Task): string {
    match t.evidence
    case Some(Evidence(_, _, Some(text))) => if t.status == Failed then text else ""
    case _ => ""
  }

  ghost predicate ShowsReasons(ts: seq<Task>, r: string, reasons: seq<string>) {
    exists at :: ReasonsOf(ts, r, at, reasons)
  }

  lemma {:induction false} ReasonsAre(ts: seq<Task>, r: string)
    ensures ShowsReasons(ts, r, Reasons(ts, r))
  {
    if ts == [] {
      assert ReasonsOf(ts, r, [], []);
    } else {
      var n := |ts| - 1;
      ReasonsAre(ts[..n], r);
      var at: seq<nat> :| ReasonsOf(ts[..n], r, at, Reasons(ts[..n], r));
      ReasonsNext(ts, r, at);
    }
  }

  lemma ReasonsNext(ts: seq<Task>, r: string, at: seq<nat>)
    requires ts != [] && ReasonsOf(ts[..|ts| - 1], r, at, Reasons(ts[..|ts| - 1], r))
    ensures ShowsReasons(ts, r, Reasons(ts, r))
  {
    var n := |ts| - 1;
    var last, before := ts[n], Reasons(ts[..n], r);
    assert FailureReason(last) == if ShownReason(last) != "" then Some(ShownReason(last)) else None;
    assert Reasons(ts, r)
        == if last.repository == r && ShownReason(last) != "" then before + [ShownReason(last)] else before;
    hide FailureReason, ShownReason, Reasons;
    if last.repository == r && ShownReason(last) != "" {
      OneReasonMore(ts, r, at, before);
      assert ReasonsOf(ts, r, at + [n], Reasons(ts, r));
    } else {
      NoReasonMore(ts, r, at, before);
      assert ReasonsOf(ts, r, at, Reasons(ts, r));
    }
  }

  lemma OneReasonMore(ts: seq<Task>, r: string, at: seq<nat>, before: seq<string>)
    requires ts != [] && ReasonsOf(ts[..|ts| - 1], r, at, before)
    requires ts[|ts| - 1].repository == r && ShownReason(ts[|ts| - 1]) != ""
    ensures ReasonsOf(ts, r, at + [|ts| - 1], before + [ShownReason(ts[|ts| - 1])])
  {
    hide ShownReason;
    var n := |ts| - 1;
    var more := at + [n];
    assert more[|at|] == n;
    forall k: nat | k < |ts| ensures k in more <==> ts[k].repository == r && ShownReason(ts[k]) != "" {
      assert k in more <==> k in at || k == n;
      assert k < n ==> ts[..n][k] == ts[k];
    }
  }

  lemma NoReasonMore(ts: seq<Task>, r: string, at: seq<nat>, before: seq<string>)
    requires ts != [] && ReasonsOf(ts[..|ts| - 1], r, at, before)
    requires ts[|ts| - 1].repository != r || ShownReason(ts[|ts| - 1]) == ""
    ensures ReasonsOf(ts, r, at, before)
  {
    hide ShownReason;
    var n := |ts| - 1;
    forall k: nat | k < |ts| ensures k in at <==> ts[k].repository == r && ShownReason(ts[k]) != "" {
      assert k < n ==> ts[..n][k] == ts[k];
    }
  }

  /** The figures of the view, per repository, in terms of the tasks. */
  ghost predicate Figures(v: View, ts: seq<Task>) {
    forall r ::
      && Get(v.taskCount, r) == |TasksAt(ts, r)|
      && Get(v.unverifiedCount, r) == |UnconfirmedAt(ts, r)|
      && Get(v.blockerCount, r) == |BlockersAt(ts, r)|
      && ShowsReasons(ts, r, GetList(v.failureReasons, r))
  }

  lemma ShowsFigures(v: View, ts: seq<Task>)
    requires Shows(v, ts)
    ensures Figures(v, ts)
  {
    hide TasksAt, UnconfirmedAt, BlockersAt, ShowsReasons, Tally, Reasons;
    forall r
      ensures && Get(v.taskCount, r) == |TasksAt(ts, r)|
              && Get(v.unverifiedCount, r) == |UnconfirmedAt(ts, r)|
              && Get(v.blockerCount, r) == |BlockersAt(ts, r)|
              && ShowsReasons(ts, r, GetList(v.failureReasons, r))
    {
      TasksCounted(ts, r);
      UnconfirmedCounted(ts, r);
      BlockersCounted(ts, r);
      ReasonsAre(ts, r);
    }
  }

  // --- What the view keeps ---------------------------------------------------------------

  lemma {:induction false} TallyJoin(a: seq<Task>, b: seq<Task>, c: Counted, r: string)
    ensures Tally(a + b, c, r) == Tally(a, c, r) + Tally(b, c, r)
  {
    if b == [] {
      assert a + b == a;
    } else {
      assert (a + b)[..|a + b| - 1] == a + b[..|b| - 1];
      TallyJoin(a, b[..|b| - 1], c, r);
    }
  }

  lemma TallyRemove(b: seq<Task>, k: nat, c: Counted, r: string)
    requires k < |b|
    ensures Tally(b, c, r) == Tally(b[..k] + b[k + 1..], c, r) + Worth(b[k], c, r)
  {
    var x := [b[k]];
    assert b == (b[..k] + x) + b[k + 1..];
    TallyJoin(b[..k] + x, b[k + 1..], c, r);
    TallyJoin(b[..k], x, c, r);
    TallyJoin(b[..k], b[k + 1..], c, r);
    assert x[..0] == [];
    assert Tally(x, c, r) == Tally(x[..0], c, r) + Worth(b[k], c, r);
  }

  /** Every count is independent of the order of the tasks. */
  lemma {:induction false} TallyPermutes(a: seq<Task>, b: seq<Task>, c: Counted, r: string)
    requires multiset(a) == multiset(b)
    ensures Tally(a, c, r) == Tally(b, c, r)
    decreases |a|
  {
    SameLength(a, b);
    if a != [] {
      var k := Counterpart(a, b);
      TallyPermutes(a[..|a| - 1], b[..k] + b[k + 1..], c, r);
      TallyRemove(b, k, c, r);
    }
  }

  /** Two orders of the same tasks give one view, up to the order of failure reasons. */
  lemma ViewIgnoresOrder(a: seq<Task>, b: seq<Task>, v: View, w: View, r: string)
    requires multiset(a) == multiset(b) && Shows(v, a) && Shows(w, b)
    ensures v.byRepository == w.byRepository && v.taskCount.Keys == w.taskCount.Keys
    ensures Get(v.taskCount, r) == Get(w.taskCount, r)
    ensures Get(v.unverifiedCount, r) == Get(w.unverifiedCount, r)
    ensures Get(v.blockerCount, r) == Get(w.blockerCount, r)
  {
    TallyPermutes(a, b, Tasks, r);
    TallyPermutes(a, b, Unverified, r);
    TallyPermutes(a, b, Blockers, r);
    hide Tally, Worth, StatusesOf, Reasons;
    StatusesIgnoreOrder(a, b, v, w);
  }

  lemma StatusesIgnoreOrder(a: seq<Task>, b: seq<Task>, v: View, w: View)
    requires multiset(a) == multiset(b) && Shows(v, a) && Shows(w, b)
    ensures v.byRepository == w.byRepository && v.taskCount.Keys == w.taskCount.Keys
  {
    hide Shows;
    SameTasks(a, b);
    assert Repositories(a) == Repositories(b);
    ShownKeys(v, a);
    ShownKeys(w, b);
    hide Repositories;
    forall q | q in Repositories(a) ensures v.byRepository[q] == w.byRepository[q] {
      SameStatus(a, b, v, w, q);
    }
  }

  lemma ShownKeys(v: View, ts: seq<Task>)
    requires Shows(v, ts)
    ensures v.byRepository.Keys == Repositories(ts) == v.taskCount.Keys
  {
  }

  lemma SameTasks(a: seq<Task>, b: seq<Task>)
    requires multiset(a) == multiset(b)
    ensures forall t :: t in a <==> t in b
  {
    forall t ensures t in a <==> t in b {
      assert t in a <==> t in multiset(a);
      assert t in b <==> t in multiset(b);
    }
  }

  lemma SameStatus(a: seq<Task>, b: seq<Task>, v: View, w: View, q: string)
    requires (forall t :: t in a <==> t in b) && Shows(v, a) && Shows(w, b)
    requires q in Repositories(a) && q in Repositories(b)
    ensures v.byRepository[q] == w.byRepository[q]
  {
    if v.byRepository[q].Some? {
      var s := v.byRepository[q].value;
      assert v.byRepository[q] == Some(s) && w.byRepository[q] == Some(s);
    }
    if w.byRepository[q].Some? {
      var s := w.byRepository[q].value;
      assert w.byRepository[q] == Some(s) && v.byRepository[q] == Some(s);
    }
  }

  lemma {:induction false} ReasonsPermute(a: seq<Task>, b: seq<Task>, r: string)
    requires multiset(a) == multiset(b)
    ensures multiset(Reasons(a, r)) == multiset(Reasons(b, r))
    decreases |a|
  {
    SameLength(a, b);
    if a != [] {
      var k := Counterpart(a, b);
      ReasonsPermute(a[..|a| - 1], b[..k] + b[k + 1..], r);
      ReasonsRemove(b, k, r);
      ReasonsRemove(a, |a| - 1, r);
      assert a[..|a| - 1] + a[|a|..] == a[..|a| - 1];
    }
  }

  lemma ReasonsRemove(b: seq<Task>, k: nat, r: string)
    requires k < |b|
    ensures multiset(Reasons(b, r)) == multiset(Reasons(b[..k] + b[k + 1..], r)) + multiset(Reasons([b[k]], r))
  {
    var x := [b[k]];
    assert b == (b[..k] + x) + b[k + 1..];
    ReasonsJoin(b[..k] + x, b[k + 1..], r);
    ReasonsJoin(b[..k], x, r);
    ReasonsJoin(b[..k], b[k + 1..], r);
  }

  lemma {:induction false} ReasonsJoin(a: seq<Task>, b: seq<Task>, r: string)
    ensures Reasons(a + b, r) == Reasons(a, r) + Reasons(b, r)
  {
    if b == [] {
      assert a + b == a;
    } else {
      assert (a + b)[..|a + b| - 1] == a + b[..|b| - 1];
      ReasonsJoin(a, b[..|b| - 1], r);
    }
  }

  ghost function TotalOver(ts: seq<Task>, repositories: seq<string>): nat {
    if repositories == [] then 0 else
      TotalOver(ts, repositories[..|repositories| - 1]) + Tally(ts, Tasks, repositories[|repositories| - 1])
  }

  lemma {:induction false} TotalNext(ts: seq<Task>, last: Task, repositories: seq<string>)
    requires Distinct(repositories)
    ensures TotalOver(ts + [last], repositories)
         == TotalOver(ts, repositories) + if last.repository in repositories then 1 else 0
  {
    if repositories != [] {
      var front, r := repositories[..|repositories| - 1], repositories[|repositories| - 1];
      TotalNext(ts, last, front);
      assert repositories == front + [r] && r !in front;
      assert (ts + [last])[..|ts|] == ts;
    }
  }

  /** Listing each repository once, the task counts add up to the number of tasks. */
  lemma {:induction false} CountsAddUp(ts: seq<Task>, repositories: seq<string>)
    requires Distinct(repositories) && Repositories(ts) <= SetOf(repositories)
    ensures TotalOver(ts, repositories) == |ts|
  {
    if ts == [] {
      NoTasks(repositories);
    } else {
      var front, last := ts[..|ts| - 1], ts[|ts| - 1];
      assert ts == front + [last];
      assert last.repository in Repositories(ts);
      CountsAddUp(front, repositories);
      TotalNext(front, last, repositories);
    }
  }

  lemma {:induction false} NoTasks(repositories: seq<string>)
    ensures TotalOver([], repositories) == 0
  {
    if repositories != [] {
      NoTasks(repositories[..|repositories| - 1]);
    }
  }

  lemma {:induction false} UnverifiedWithinTasks(ts: seq<Task>, r: string)
    ensures Tally(ts, Unverified, r) <= Tally(ts, Tasks, r)
    ensures Tally(ts, Unverified, r) == 0 ==> Tally(ts, Blockers, r) == 0
  {
    if ts != [] {
      UnverifiedWithinTasks(ts[..|ts| - 1], r);
    }
  }

  function WithoutFailed(ts: seq<Task>): seq<Task> {
    if ts == [] then [] else
      WithoutFailed(ts[..|ts| - 1]) + if ts[|ts| - 1].status.Failed? then [] else [ts[|ts| - 1]]
  }

  /** Failed tasks could be left out: they add nothing to either amber count. */
  lemma {:induction false} FailedAddNothing(ts: seq<Task>, c: Counted, r: string)
    requires c != Tasks
    ensures Tally(WithoutFailed(ts), c, r) == Tally(ts, c, r)
  {
    if ts != [] {
      var front, last := ts[..|ts| - 1], ts[|ts| - 1];
      FailedAddNothing(front, c, r);
      var kept := WithoutFailed(front);
      assert kept + [] == kept && (kept + [last])[..|kept|] == kept;
    }
  }
}
