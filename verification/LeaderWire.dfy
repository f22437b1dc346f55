/** Readers and writers of the leader's documents (contracts.py, leader-actions v1). */
module LeaderWire {
  import opened Common
  import opened JsonValues
  import opened LeaderRecords
  import opened TaskDag
  import opened Wire
  import PlanCheck

  const ASSIGNMENT_PACKAGE_SCHEMA := "repomesh.leader-actions.assignment-package.v1"
  const PLAN_DECISION_SCHEMA := "repomesh.leader-actions.plan-decision.v1"
  const REVIEW_DECISION_SCHEMA := "repomesh.leader-actions.review-decision.v1"
  const PLAN_RECEIPT_SCHEMA := "repomesh.leader-actions.plan-receipt.v1"
  const REVIEW_RECEIPT_SCHEMA := "repomesh.leader-actions.review-receipt.v1"
  const PROVENANCE_SOURCE := "leader-codex-session"

  const PHASES := ["planning", "executing", "review_due", "closed"]
  const VERDICTS := ["approve", "request_rework", "escalate"]
  const TASK_STATUSES := ["succeeded", "in_progress", "blocked"]
  const EVIDENCE_STATUSES := ["succeeded", "failed", "blocked", "cancelled", "superseded"]

  const MAX_TEXT := 200000
  const MAX_NODE_ID := 100
  const MAX_TITLE := 200
  const MAX_SUMMARY := 4000
  const MAX_SPEC_SUMMARY := 500
  const MAX_NOTE := 2000
  const MAX_THREAD_ID := 200
  const MAX_NAME := 100

  // --- The assignment package ------------------------------------------------------------

  function ReadFacts(j: Json): Result<RepositoryTaskFacts, Refusal> {
    var f :- Object(j, {Title, Instruction, Acceptance}, {});
    var title :- Text(f, Title, 1, MAX_TITLE);
    var instruction :- Text(f, Instruction, 1, MAX_TEXT);
    var acceptance :- Text(f, Acceptance, 0, MAX_TEXT);
    Success(RepositoryTaskFacts(title, instruction, acceptance))
  }

  function WriteFacts(r: RepositoryTaskFacts): Json {
    Obj(map[Title := Str(r.title), Instruction := Str(r.instruction), Acceptance := Str(r.acceptance)])
  }

  function ReadRosterEntry(j: Json): Result<WorkerRosterEntry, Refusal> {
    var f :- Object(j, {WorkerAgentId, WorkerName, ResponsibilityPaths}, {});
    var id :- Uuid(f, WorkerAgentId);
    var name :- Text(f, WorkerName, 1, MAX_NAME);
    var paths :- Strings(f, ResponsibilityPaths, 0);
    Success(WorkerRosterEntry(id, name, paths))
  }

  function WriteRosterEntry(r: WorkerRosterEntry): Json {
    Obj(map[WorkerAgentId := Str(r.workerAgentId), WorkerName := Str(r.workerName),
            ResponsibilityPaths := WriteStrings(r.responsibilityPaths)])
  }

  function ReadEnvelope(j: Json): Result<SafetyEnvelope, Refusal> {
    var f :- Object(j, {AllowedPathRoots, TestPaths, TestCommands}, {});
    var roots :- Strings(f, AllowedPathRoots, 1);
    var paths :- Strings(f, TestPaths, 0);
    var commands :- Strings(f, TestCommands, 0);
    Success(SafetyEnvelope(roots, paths, commands))
  }

  function WriteEnvelope(r: SafetyEnvelope): Json {
    Obj(map[AllowedPathRoots := WriteStrings(r.allowedPathRoots), TestPaths := WriteStrings(r.testPaths),
            TestCommands := WriteStrings(r.testCommands)])
  }

  function ReadDependency(j: Json): Result<DependencyEdge, Refusal> {
    var f :- Object(j, {UpstreamRepositoryId, DownstreamRepositoryId}, {});
    var up :- Uuid(f, UpstreamRepositoryId);
    var down :- Uuid(f, DownstreamRepositoryId);
    Success(DependencyEdge(up, down))
  }

  function WriteDependency(r: DependencyEdge): Json {
    Obj(map[UpstreamRepositoryId := Str(r.upstream), DownstreamRepositoryId := Str(r.downstream)])
  }

  function ReadAdvisory(j: Json): Result<AdvisoryContext, Refusal> {
    var f :- Object(j, {Authoritative}, {DiscoveryEvidence, DependencyEdges, DecompositionHint});
    if f[Authoritative] != Bool(false) then Failure(BadField(Authoritative)) else
      var items :- if Missing(f, DependencyEdges) then Success([]) else Items(f, DependencyEdges, 0);
      var edges :- ReadAll(items, ReadDependency);
      var evidence :- OptionalText(f, DiscoveryEvidence, MAX_TEXT);
      var hint :- OptionalText(f, DecompositionHint, MAX_TEXT);
      Success(AdvisoryContext(evidence, edges, hint))
  }

  /** An empty list of edges is left out, like an absent hint. */
  function WriteAdvisory(r: AdvisoryContext): Json {
    var base := map[Authoritative := Bool(false)];
    var withEdges := if r.dependencyEdges == [] then base
                     else base[DependencyEdges := Arr(WriteAll(r.dependencyEdges, WriteDependency))];
    Obj(With(With(withEdges, DiscoveryEvidence, r.discoveryEvidence), DecompositionHint, r.decompositionHint))
  }

  function ReadTestResult(j: Json): Result<TestResult, Refusal> {
    var f :- Object(j, {Command, ExitCode}, {});
    var command :- Text(f, Command, 1, MAX_TEXT);
    var code :- Integer(f, ExitCode, None);
    Success(TestResult(command, code))
  }

  function WriteTestResult(r: TestResult): Json {
    Obj(map[Command := Str(r.command), ExitCode := Number(r.exitCode)])
  }

  /** 7 to 40 lower-case hex digits; like the pattern's "$", a final line feed passes. */
  predicate CommitShape(s: string) {
    var t := if s != [] && s[|s| - 1] == '\n' then s[..|s| - 1] else s;
    7 <= |t| <= 40 && forall c | c in t :: '0' <= c <= '9' || 'a' <= c <= 'f'
  }

  function ReadCommit(f: map<Field, Json>): Result<Option<string>, Refusal> {
    if Missing(f, CommitSha) then Success(None) else
      var s :- Text(f, CommitSha, 7, 40);
      if CommitShape(s) then Success(Some(s)) else Failure(BadField(CommitSha))
  }

  const EVIDENCE_FIELDS := {
    WorkerTaskId, WorkerAgentId, StatusField, RunId, CommitSha, ChangedFiles, TestResults}

  function ReadWorkerEvidence(j: Json): Result<WorkerEvidence, Refusal> {
    var f :- Object(j, EVIDENCE_FIELDS, {DiffStat, Summary});
    WorkerEvidenceFrom(f)
  }

  function WorkerEvidenceFrom(f: map<Field, Json>): Result<WorkerEvidence, Refusal>
    requires EVIDENCE_FIELDS <= f.Keys
  {
    var task :- Uuid(f, WorkerTaskId);
    var agent :- Uuid(f, WorkerAgentId);
    var status :- Enum(f, StatusField, EVIDENCE_STATUSES);
    var run :- OptionalUuid(f, RunId);
    var commit :- ReadCommit(f);
    var files :- Strings(f, ChangedFiles, 0);
    var items :- Items(f, TestResults, 0);
    var results :- ReadAll(items, ReadTestResult);
    var diff :- OptionalText(f, DiffStat, MAX_TEXT);
    var summary :- OptionalText(f, Summary, MAX_TEXT);
    Success(WorkerEvidence(task, agent, status, run, commit, files, results, diff, summary))
  }

  function Nullable(value: Option<string>): Json {
    if value.Some? then Str(value.value) else Null
  }

  function WriteWorkerEvidence(r: WorkerEvidence): Json {
    var base := map[
      WorkerTaskId := Str(r.workerTaskId), WorkerAgentId := Str(r.workerAgentId), StatusField := Str(r.status),
      RunId := Nullable(r.runId), CommitSha := Nullable(r.commitSha),
      ChangedFiles := WriteStrings(r.changedFiles), TestResults := Arr(WriteAll(r.testResults, WriteTestResult))];
    Obj(With(With(base, DiffStat, r.diffStat), Summary, r.summary))
  }

  function ReadReviewEvidence(j: Json): Result<ReviewEvidence, Refusal> {
    var f :- Object(j, {ReviewRevision, WorkerEvidenceField}, {});
    var revision :- Integer(f, ReviewRevision, Some(1));
    var items :- Items(f, WorkerEvidenceField, 1);
    var evidence :- ReadAll(items, ReadWorkerEvidence);
    Success(ReviewEvidence(revision, evidence))
  }

  function WriteReviewEvidence(r: ReviewEvidence): Json {
    Obj(map[ReviewRevision := Number(r.reviewRevision),
            WorkerEvidenceField := Arr(WriteAll(r.workerEvidence, WriteWorkerEvidence))])
  }

  /** Evidence from review_due on, and none before. */
  predicate PhaseFits(p: AssignmentPackage) {
    p.phase in PHASES && (p.phase in ["review_due", "closed"] <==> p.reviewEvidence.Some?)
  }

  function ReadOptionalEvidence(j: Json): Result<Option<ReviewEvidence>, Refusal> {
    if j.Null? then Success(None) else
      var e :- ReadReviewEvidence(j);
      Success(Some(e))
  }

  const PACKAGE_FIELDS := {
    SchemaVersion, LeaderTaskId, Phase, OrganizationId, ProjectId, RepositoryId, RepositoryTask,
    WorkerRoster, SafetyEnvelopeField, AdvisoryContextField, ReviewEvidenceField}

  function ReadPackage(j: Json): Result<AssignmentPackage, Refusal> {
    var f :- Object(j, PACKAGE_FIELDS, {});
    PackageFrom(f)
  }

  function PackageFrom(f: map<Field, Json>): Result<AssignmentPackage, Refusal>
    requires PACKAGE_FIELDS <= f.Keys
  {
    var _ :- Const(f, SchemaVersion, ASSIGNMENT_PACKAGE_SCHEMA);
    var task :- Uuid(f, LeaderTaskId);
    var phase :- Enum(f, Phase, PHASES);
    var organization :- Uuid(f, OrganizationId);
    var project :- Uuid(f, ProjectId);
    var repository :- Uuid(f, RepositoryId);
    var facts :- ReadFacts(f[RepositoryTask]);
    var entries :- Items(f, WorkerRoster, 1);
    var roster :- ReadAll(entries, ReadRosterEntry);
    var envelope :- ReadEnvelope(f[SafetyEnvelopeField]);
    var advisory :- ReadAdvisory(f[AdvisoryContextField]);
    var evidence :- ReadOptionalEvidence(f[ReviewEvidenceField]);
    var p := AssignmentPackage(
      task, phase, organization, project, repository, facts, roster, envelope, advisory, evidence);
    if PhaseFits(p) then Success(p) else Failure(BrokenRule)
  }

  function WritePackage(p: AssignmentPackage): Json {
    Obj(map[
      SchemaVersion := Str(ASSIGNMENT_PACKAGE_SCHEMA), LeaderTaskId := Str(p.leaderTaskId), Phase := Str(p.phase),
      OrganizationId := Str(p.organizationId), ProjectId := Str(p.projectId), RepositoryId := Str(p.repositoryId),
      RepositoryTask := WriteFacts(p.repositoryTask),
      WorkerRoster := Arr(WriteAll(p.workerRoster, WriteRosterEntry)),
      SafetyEnvelopeField := WriteEnvelope(p.safetyEnvelope),
      AdvisoryContextField := WriteAdvisory(p.advisoryContext),
      ReviewEvidenceField := if p.reviewEvidence.Some? then WriteReviewEvidence(p.reviewEvidence.value) else Null])
  }

  // --- The plan decision ------------------------------------------------------------------

  function ReadSpec(j: Json): Result<EngineeringSpec, Refusal> {
    var f :- Object(j, {Summary, Markdown}, {});
    var summary :- Text(f, Summary, 1, MAX_SPEC_SUMMARY);
    var markdown :- Text(f, Markdown, 1, MAX_TEXT);
    Success(EngineeringSpec(summary, markdown))
  }

  function WriteSpec(r: EngineeringSpec): Json {
    Obj(map[Summary := Str(r.summary), Markdown := Str(r.markdown)])
  }

  function ReadEdge(j: Json): Result<Edge, Refusal> {
    var f :- Object(j, {FromNode, ToNode}, {});
    var from :- Text(f, FromNode, 1, MAX_NODE_ID);
    var to :- Text(f, ToNode, 1, MAX_NODE_ID);
    Success(Edge(from, to))
  }

  function WriteEdge(r: Edge): Json {
    Obj(map[FromNode := Str(r.fromNode), ToNode := Str(r.toNode)])
  }

  function ReadNode(j: Json): Result<string, Refusal> {
    var f :- Object(j, {NodeId}, {});
    Text(f, NodeId, 1, MAX_NODE_ID)
  }

  function WriteNode(id: string): Json {
    Obj(map[NodeId := Str(id)])
  }

  function ReadDag(j: Json): Result<Dag, Refusal> {
    var f :- Object(j, {Nodes, Edges}, {});
    var nodeItems :- Items(f, Nodes, 1);
    var nodes :- ReadAll(nodeItems, ReadNode);
    var edgeItems :- Items(f, Edges, 0);
    var edges :- ReadAll(edgeItems, ReadEdge);
    Success(Dag(nodes, edges))
  }

  function WriteDag(r: Dag): Json {
    Obj(map[Nodes := Arr(WriteAll(r.nodes, WriteNode)), Edges := Arr(WriteAll(r.edges, WriteEdge))])
  }

  function ReadDatabaseChange(f: map<Field, Json>): Result<Option<map<Field, Json>>, Refusal> {
    if DatabaseChange !in f then Success(None)
    else if f[DatabaseChange].Obj? then Success(Some(f[DatabaseChange].fields))
    else Failure(NotAnObject)
  }

  function ReadPlannedTask(j: Json): Result<PlannedWorkerTask, Refusal> {
    var f :- Object(j, {NodeId, AssigneeWorkerAgentId, Title, Instruction, AllowedPaths, Tests}, {DatabaseChange});
    var node :- Text(f, NodeId, 1, MAX_NODE_ID);
    var assignee :- Uuid(f, AssigneeWorkerAgentId);
    var title :- Text(f, Title, 1, MAX_TITLE);
    var instruction :- Text(f, Instruction, 1, MAX_TEXT);
    var paths :- Strings(f, AllowedPaths, 1);
    var tests :- Strings(f, Tests, 0);
    var change :- ReadDatabaseChange(f);
    Success(PlannedWorkerTask(node, assignee, title, instruction, paths, tests, change))
  }

  function WritePlannedTask(r: PlannedWorkerTask): Json {
    var base := map[
      NodeId := Str(r.nodeId), AssigneeWorkerAgentId := Str(r.assignee), Title := Str(r.title),
      Instruction := Str(r.instruction), AllowedPaths := WriteStrings(r.allowedPaths), Tests := WriteStrings(r.tests)];
    Obj(if r.databaseChange.Some? then base[DatabaseChange := Obj(r.databaseChange.value)] else base)
  }

  function ReadProvenance(j: Json): Result<Provenance, Refusal> {
    var f :- Object(j, {Source, SessionThreadId}, {TurnId});
    var _ :- Const(f, Source, PROVENANCE_SOURCE);
    var thread :- Text(f, SessionThreadId, 1, MAX_THREAD_ID);
    var turn :- OptionalText(f, TurnId, MAX_THREAD_ID);
    Success(Provenance(thread, turn))
  }

  function WriteProvenance(r: Provenance): Json {
    Obj(With(map[Source := Str(PROVENANCE_SOURCE), SessionThreadId := Str(r.sessionThreadId)], TurnId, r.turnId))
  }

  /** The constructor's check is part of reading: a plan that cannot be carried out is refused. */
  ghost function ReadPlan(j: Json): Result<PlanDecision, Refusal> {
    var f :- Object(j, {SchemaVersion, EngineeringSpecField, TaskDagField, WorkerTasks, ProvenanceField}, {});
    var _ :- Const(f, SchemaVersion, PLAN_DECISION_SCHEMA);
    var spec :- ReadSpec(f[EngineeringSpecField]);
    var dag :- ReadDag(f[TaskDagField]);
    var items :- Items(f, WorkerTasks, 1);
    var tasks :- ReadAll(items, ReadPlannedTask);
    var provenance :- ReadProvenance(f[ProvenanceField]);
    var plan := PlanDecision(spec, dag, tasks, provenance);
    if PlanCheck.Executable(plan) then Success(plan) else Failure(BrokenRule)
  }

  function WritePlan(p: PlanDecision): Json {
    Obj(map[
      SchemaVersion := Str(PLAN_DECISION_SCHEMA), EngineeringSpecField := WriteSpec(p.engineeringSpec),
      TaskDagField := WriteDag(p.taskDag), WorkerTasks := Arr(WriteAll(p.workerTasks, WritePlannedTask)),
      ProvenanceField := WriteProvenance(p.provenance)])
  }

  // --- The review decision -----------------------------------------------------------------

  function ReadFinding(j: Json): Result<ReviewFinding, Refusal> {
    var f :- Object(j, {WorkerTaskId, Note}, {ReworkInstruction});
    var task :- Uuid(f, WorkerTaskId);
    var note :- Text(f, Note, 1, MAX_NOTE);
    var rework :- OptionalText(f, ReworkInstruction, MAX_TEXT);
    Success(ReviewFinding(task, note, rework))
  }

  function WriteFinding(r: ReviewFinding): Json {
    Obj(With(map[WorkerTaskId := Str(r.workerTaskId), Note := Str(r.note)], ReworkInstruction, r.reworkInstruction))
  }

  /** A demand for rework says what to redo. */
  predicate VerdictFits(r: ReviewDecision) {
    && r.verdict in VERDICTS
    && (r.verdict == "request_rework" ==>
          exists f :: f in r.findings && f.reworkInstruction.Some? && f.reworkInstruction.value != "")
  }

  function ReadReview(j: Json): Result<ReviewDecision, Refusal> {
    var f :- Object(j, {SchemaVersion, Verdict, Summary, Findings, ProvenanceField}, {});
    var _ :- Const(f, SchemaVersion, REVIEW_DECISION_SCHEMA);
    var verdict :- Enum(f, Verdict, VERDICTS);
    var summary :- Text(f, Summary, 1, MAX_SUMMARY);
    var items :- Items(f, Findings, 0);
    var findings :- ReadAll(items, ReadFinding);
    var provenance :- ReadProvenance(f[ProvenanceField]);
    var r := ReviewDecision(verdict, summary, findings, provenance);
    if VerdictFits(r) then Success(r) else Failure(BrokenRule)
  }

  function WriteReview(r: ReviewDecision): Json {
    Obj(map[
      SchemaVersion := Str(REVIEW_DECISION_SCHEMA), Verdict := Str(r.verdict), Summary := Str(r.summary),
      Findings := Arr(WriteAll(r.findings, WriteFinding)), ProvenanceField := WriteProvenance(r.provenance)])
  }

  // --- The receipts -------------------------------------------------------------------------

  function ReadPlanReceipt(j: Json): Result<PlanReceipt, Refusal> {
    var f :- Object(j, {SchemaVersion, LeaderTaskId, PlanRevision, WorkerTaskIds}, {});
    var _ :- Const(f, SchemaVersion, PLAN_RECEIPT_SCHEMA);
    var task :- Uuid(f, LeaderTaskId);
    var revision :- Integer(f, PlanRevision, Some(1));
    var ids :- UuidList(f, WorkerTaskIds, 1);
    Success(PlanReceipt(task, revision, ids))
  }

  function WritePlanReceipt(r: PlanReceipt): Json {
    Obj(map[
      SchemaVersion := Str(PLAN_RECEIPT_SCHEMA), LeaderTaskId := Str(r.leaderTaskId),
      PlanRevision := Number(r.planRevision), WorkerTaskIds := WriteStrings(r.workerTaskIds)])
  }

  function ReadReviewReceipt(j: Json): Result<ReviewReceipt, Refusal> {
    var f :- Object(j, {SchemaVersion, LeaderTaskId, Verdict, ReviewRevision, LeaderTaskStatus, ReworkTaskIds}, {});
    var _ :- Const(f, SchemaVersion, REVIEW_RECEIPT_SCHEMA);
    var task :- Uuid(f, LeaderTaskId);
    var verdict :- Enum(f, Verdict, VERDICTS);
    var revision :- Integer(f, ReviewRevision, Some(1));
    var status :- Enum(f, LeaderTaskStatus, TASK_STATUSES);
    var ids :- UuidList(f, ReworkTaskIds, 0);
    Success(ReviewReceipt(task, verdict, revision, status, ids))
  }

  function WriteReviewReceipt(r: ReviewReceipt): Json {
    Obj(map[
      SchemaVersion := Str(REVIEW_RECEIPT_SCHEMA), LeaderTaskId := Str(r.leaderTaskId), Verdict := Str(r.verdict),
      ReviewRevision := Number(r.reviewRevision), LeaderTaskStatus := Str(r.leaderTaskStatus),
      ReworkTaskIds := WriteStrings(r.reworkTaskIds)])
  }
}
