/** The safety envelope: which plans an assignment package refuses, and why
    (contracts.py, RepositoryAssignmentPackage and _within_roots). */
module Envelope {
  import opened Common
  import opened LeaderRecords
  import opened Text

  // --- Paths and roots ----------------------------------------------------------

  function Candidate(path: string): string {
    LStripChars(Strip(path), {'.', '/'})
  }

  function NormalRoot(root: string): string {
    RemoveSuffix(RemoveSuffix(Candidate(root), "**"), "*")
  }

  /** Some root's normal form is a prefix of the normalised path. */
  ghost predicate Admitted(path: string, roots: seq<string>) {
    exists root :: root in roots && NormalRoot(root) <= Candidate(path)
  }

  method WithinRoots(path: string, roots: seq<string>) returns (within: bool)
    ensures within <==> Admitted(path, roots)
  {
    var candidate := LStripChars(Strip(path), {'.', '/'});
    for i := 0 to |roots|
      invariant forall root | root in roots[..i] :: !(NormalRoot(root) <= candidate)
    {
      var normalised := NormalRoot(roots[i]);
      if normalised == [] || normalised <= candidate {
        assert roots[i] in roots;
        return true;
      }
    }
    within := false;
  }

  function TrailingStars(s: string): nat {
    if s != [] && s[|s| - 1] == '*' then 1 + TrailingStars(s[..|s| - 1]) else 0
  }

  lemma {:induction false} StarsFit(s: string)
    ensures TrailingStars(s) <= |s|
  {
    if s != [] && s[|s| - 1] == '*' {
      StarsFit(s[..|s| - 1]);
    }
  }

  lemma RemoveOneStar(s: string)
    ensures TrailingStars(s) <= |s|
    ensures TrailingStars(s) == 0 ==> RemoveSuffix(s, "*") == s
    ensures TrailingStars(s) > 0 ==> RemoveSuffix(s, "*") == s[..|s| - 1]
  {
    StarsFit(s);
    if s != [] { assert s[|s| - 1..] == [s[|s| - 1]]; }
  }

  lemma RemoveTwoStars(s: string)
    ensures TrailingStars(s) <= |s|
    ensures TrailingStars(s) < 2 ==> RemoveSuffix(s, "**") == s
    ensures TrailingStars(s) >= 2 ==>
      RemoveSuffix(s, "**") == s[..|s| - 2] && TrailingStars(s[..|s| - 2]) == TrailingStars(s) - 2
  {
    StarsFit(s);
    if |s| >= 2 {
      assert s[|s| - 2..] == [s[|s| - 2], s[|s| - 1]];
      assert s[..|s| - 1][..|s| - 2] == s[..|s| - 2];
    }
  }

  lemma DropStars(c: string)
    ensures TrailingStars(c) <= |c|
    ensures RemoveSuffix(RemoveSuffix(c, "**"), "*")
         == c[..|c| - if TrailingStars(c) < 3 then TrailingStars(c) else 3]
  {
    hide TrailingStars, RemoveSuffix;
    RemoveTwoStars(c);
    RemoveOneStar(RemoveSuffix(c, "**"));
    if TrailingStars(c) > 2 {
      assert c[..|c| - 2][..|c| - 3] == c[..|c| - 3];
    }
  }

  /** Stripping "**" and then "*" removes exactly the last three stars, or all if fewer. */
  lemma NormalRootDropsStars(root: string)
    ensures var c := Candidate(root);
            && TrailingStars(c) <= |c|
            && NormalRoot(root) == c[..|c| - if TrailingStars(c) < 3 then TrailingStars(c) else 3]
  {
    DropStars(Candidate(root));
  }

  /** A path spelled like a root lies under it, stars and leading dots included. */
  lemma RootAdmitsItself(root: string, roots: seq<string>)
    requires root in roots
    ensures Admitted(root, roots)
  {
    NormalRootDropsStars(root);
    assert NormalRoot(root) <= Candidate(root);
  }

  /** Each old root has a new one whose normal form is a prefix of its own. */
  ghost predicate Covers(wide: seq<string>, narrow: seq<string>) {
    forall root | root in narrow :: exists w :: w in wide && NormalRoot(w) <= NormalRoot(root)
  }

  /** Covering roots admit every path the old ones did. */
  lemma CoveringAdmits(path: string, narrow: seq<string>, wide: seq<string>)
    requires Covers(wide, narrow) && Admitted(path, narrow)
    ensures Admitted(path, wide)
  {
    var root :| root in narrow && NormalRoot(root) <= Candidate(path);
    var w :| w in wide && NormalRoot(w) <= NormalRoot(root);
  }

  /** And only covering roots do, unless an old root's normal form ends in white space,
      which no normalised path does. */
  lemma CoveringIsExact(narrow: seq<string>, wide: seq<string>)
    requires forall root | root in narrow :: RStrip(NormalRoot(root)) == NormalRoot(root)
    ensures Covers(wide, narrow) <==> forall path | Admitted(path, narrow) :: Admitted(path, wide)
  {
    if Covers(wide, narrow) {
      forall path | Admitted(path, narrow) ensures Admitted(path, wide) {
        CoveringAdmits(path, narrow, wide);
      }
    }
    if forall path | Admitted(path, narrow) :: Admitted(path, wide) {
      forall root | root in narrow ensures exists w :: w in wide && NormalRoot(w) <= NormalRoot(root) {
        var path := "." + NormalRoot(root);
        NormalRootIsACandidate(root);
        assert Admitted(path, narrow);
        assert Admitted(path, wide);
      }
    }
  }

  /** Some path has this root's normal form for its own. */
  lemma NormalRootIsACandidate(root: string)
    requires RStrip(NormalRoot(root)) == NormalRoot(root)
    ensures Candidate("." + NormalRoot(root)) == NormalRoot(root)
  {
    hide NormalRoot;
    var n := NormalRoot(root);
    NormalRootDropsStars(root);
    HeadKept(Strip(root), {'.', '/'});
    assert n <= Candidate(root);
    assert n != [] ==> n[0] == Candidate(root)[0];
    assert LStrip("." + n) == "." + n;
    if n != [] {
      RStripShrinks(n[..|n| - 1]);
      assert !IsSpace(n[|n| - 1]);
    }
    assert RStrip("." + n) == "." + n;
    assert LStripChars(n, {'.', '/'}) == n;
    assert ("." + n)[1..] == n;
  }

  lemma {:induction false} RStripShrinks(s: string)
    ensures |RStrip(s)| <= |s|
  {
    if s != [] && IsSpace(s[|s| - 1]) {
      RStripShrinks(s[..|s| - 1]);
    }
  }

  lemma {:induction false} HeadKept(s: string, drop: set<char>)
    ensures LStripChars(s, drop) != [] ==> LStripChars(s, drop)[0] !in drop
  {
    if s != [] && s[0] in drop {
      HeadKept(s[1..], drop);
    }
  }

  // --- The clamp on a plan ------------------------------------------------------

  datatype Refusal =
    | OffRoster(nodeId: string, assignee: string)
    | OutsideRoots(nodeId: string, path: string)
    | DropsCommands(nodeId: string, dropped: set<string>)

  ghost predicate OnRoster(p: AssignmentPackage, agent: string) {
    exists entry :: entry in p.workerRoster && entry.workerAgentId == agent
  }

  ghost predicate TaskInside(p: AssignmentPackage, t: PlannedWorkerTask) {
    && OnRoster(p, t.assignee)
    && (forall path | path in t.allowedPaths :: Admitted(path, p.safetyEnvelope.allowedPathRoots))
    && (forall command | command in p.safetyEnvelope.testCommands :: command in t.tests)
  }

  ghost predicate InsideEnvelope(p: AssignmentPackage, plan: PlanDecision) {
    forall t | t in plan.workerTasks :: TaskInside(p, t)
  }

  /** The reason names the first bound this task breaks: roster, then paths, then commands. */
  ghost predicate Explains(r: Refusal, p: AssignmentPackage, t: PlannedWorkerTask) {
    match r
    case OffRoster(node, assignee) =>
      node == t.nodeId && assignee == t.assignee && !OnRoster(p, assignee)
    case OutsideRoots(node, path) =>
      && node == t.nodeId && OnRoster(p, t.assignee)
      && path in t.allowedPaths && !Admitted(path, p.safetyEnvelope.allowedPathRoots)
    case DropsCommands(node, dropped) =>
      && node == t.nodeId && OnRoster(p, t.assignee)
      && (forall path | path in t.allowedPaths :: Admitted(path, p.safetyEnvelope.allowedPathRoots))
      && dropped != {}
      && forall c :: c in dropped <==> c in p.safetyEnvelope.testCommands && c !in t.tests
  }

  ghost predicate FirstOutside(p: AssignmentPackage, tasks: seq<PlannedWorkerTask>, r: Refusal) {
    exists i :: 0 <= i < |tasks| && (forall t | t in tasks[..i] :: TaskInside(p, t)) && Explains(r, p, tasks[i])
  }

  /** None exactly when every task is inside the envelope; otherwise the refusal is
      about the first task that is not. */
  method RefusePlan(p: AssignmentPackage, plan: PlanDecision) returns (refusal: Option<Refusal>)
    ensures refusal.None? <==> InsideEnvelope(p, plan)
    ensures refusal.Some? ==> FirstOutside(p, plan.workerTasks, refusal.value)
  {
    var roster := set entry | entry in p.workerRoster :: entry.workerAgentId;
    var roots := p.safetyEnvelope.allowedPathRoots;
    var mandatory := SetOf(p.safetyEnvelope.testCommands);
    for i := 0 to |plan.workerTasks|
      invariant forall t | t in plan.workerTasks[..i] :: TaskInside(p, t)
    {
      var task := plan.workerTasks[i];
      assert task in plan.workerTasks;
      if task.assignee !in roster {
        return Some(OffRoster(task.nodeId, task.assignee));
      }
      for j := 0 to |task.allowedPaths|
        invariant forall path | path in task.allowedPaths[..j] :: Admitted(path, roots)
      {
        var within := WithinRoots(task.allowedPaths[j], roots);
        if !within {
          return Some(OutsideRoots(task.nodeId, task.allowedPaths[j]));
        }
      }
      assert task.allowedPaths[..|task.allowedPaths|] == task.allowedPaths;
      var dropped := mandatory - SetOf(task.tests);
      if dropped != {} {
        return Some(DropsCommands(task.nodeId, dropped));
      }
      assert TaskInside(p, task) by {
        forall c | c in p.safetyEnvelope.testCommands ensures c in task.tests {
          assert c in mandatory && c !in dropped;
        }
      }
      assert plan.workerTasks[..i + 1] == plan.workerTasks[..i] + [task];
    }
    refusal := None;
  }

  /** More workers, covering roots and fewer commands never refuse an accepted plan. */
  lemma WideningKeepsPlans(p: AssignmentPackage, wider: AssignmentPackage, plan: PlanDecision)
    requires InsideEnvelope(p, plan)
    requires forall agent | OnRoster(p, agent) :: OnRoster(wider, agent)
    requires Covers(wider.safetyEnvelope.allowedPathRoots, p.safetyEnvelope.allowedPathRoots)
    requires forall c | c in wider.safetyEnvelope.testCommands :: c in p.safetyEnvelope.testCommands
    ensures InsideEnvelope(wider, plan)
  {
    forall t | t in plan.workerTasks ensures TaskInside(wider, t) {
      assert TaskInside(p, t);
      forall path | path in t.allowedPaths
        ensures Admitted(path, wider.safetyEnvelope.allowedPathRoots)
      {
        CoveringAdmits(path, p.safetyEnvelope.allowedPathRoots, wider.safetyEnvelope.allowedPathRoots);
      }
    }
  }

  // --- The clamp on a review ------------------------------------------------------

  datatype ReviewRefusal = NoEvidence | UnknownTask(workerTaskId: string)

  ghost predicate Evidenced(p: AssignmentPackage, task: string) {
    p.reviewEvidence.Some? && exists e :: e in p.reviewEvidence.value.workerEvidence && e.workerTaskId == task
  }

  ghost predicate FirstUnknown(p: AssignmentPackage, findings: seq<ReviewFinding>, task: string) {
    exists i :: 0 <= i < |findings| && (forall f | f in findings[..i] :: Evidenced(p, f.workerTaskId))
                && findings[i].workerTaskId == task && !Evidenced(p, task)
  }

  method RefuseReview(p: AssignmentPackage, review: ReviewDecision) returns (refusal: Option<ReviewRefusal>)
    ensures refusal.None? <==>
      p.reviewEvidence.Some? && forall f | f in review.findings :: Evidenced(p, f.workerTaskId)
    ensures refusal == Some(NoEvidence) <==> p.reviewEvidence.None?
    ensures refusal.Some? && refusal.value.UnknownTask? ==>
      FirstUnknown(p, review.findings, refusal.value.workerTaskId)
  {
    if p.reviewEvidence.None? {
      return Some(NoEvidence);
    }
    var known := set e | e in p.reviewEvidence.value.workerEvidence :: e.workerTaskId;
    for i := 0 to |review.findings|
      invariant forall f | f in review.findings[..i] :: Evidenced(p, f.workerTaskId)
    {
      var finding := review.findings[i];
      assert finding in review.findings;
      if finding.workerTaskId !in known {
        return Some(UnknownTask(finding.workerTaskId));
      }
    }
    refusal := None;
  }
}
