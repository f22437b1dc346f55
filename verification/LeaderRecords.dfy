/** Parsed JSON documents. The field names the wire contracts use are constructors;
    any other name is carried as its text. */
module JsonValues {
  datatype Field =
    | SchemaVersion | OrganizationId | ProjectId | RepositoryId | LeaderTaskId | Phase
    | RepositoryTask | WorkerRoster | SafetyEnvelopeField | AdvisoryContextField | ReviewEvidenceField
    | Title | Instruction | Acceptance
    | WorkerAgentId | WorkerName | ResponsibilityPaths
    | AllowedPathRoots | TestPaths | TestCommands
    | UpstreamRepositoryId | DownstreamRepositoryId
    | Authoritative | DiscoveryEvidence | DependencyEdges | DecompositionHint
    | Command | ExitCode
    | WorkerTaskId | StatusField | RunId | CommitSha | ChangedFiles | TestResults | DiffStat | Summary
    | ReviewRevision | WorkerEvidenceField
    | Markdown | FromNode | ToNode | Nodes | Edges | NodeId
    | AssigneeWorkerAgentId | AllowedPaths | Tests | DatabaseChange
    | Source | SessionThreadId | TurnId
    | EngineeringSpecField | TaskDagField | WorkerTasks | ProvenanceField
    | Note | ReworkInstruction | Verdict | Findings
    | PlanRevision | WorkerTaskIds | LeaderTaskStatus | ReworkTaskIds
    | TeamName | MatrixUserId | MatrixHomeserverUrl | AllowedRoomIds | RepomeshEndpoint
    | CodingProfile | CredentialRefsField | DisplayName | RoleField | ContainerManaged
    | MatrixRef | ModelRef | ScmRef | RepomeshRef
    | Other(name: string)

  datatype Json =
    | Null
    | Bool(flag: bool)
    | Number(number: int)
    | Fraction(digits: string)
    | Str(text: string)
    | Arr(items: seq<Json>)
    | Obj(fields: map<Field, Json>)
}

/** The frozen records of the leader's decision surface (contracts.py). Identifiers
    are canonical UUID text. */
module LeaderRecords {
  import opened Common
  import opened JsonValues
  import opened TaskDag

  datatype RepositoryTaskFacts = RepositoryTaskFacts(title: string, instruction: string, acceptance: string)

  datatype WorkerRosterEntry =
    WorkerRosterEntry(workerAgentId: string, workerName: string, responsibilityPaths: seq<string>)

  datatype SafetyEnvelope =
    SafetyEnvelope(allowedPathRoots: seq<string>, testPaths: seq<string>, testCommands: seq<string>)

  datatype DependencyEdge = DependencyEdge(upstream: string, downstream: string)

  datatype AdvisoryContext = AdvisoryContext(
    discoveryEvidence: Option<string>,
    dependencyEdges: seq<DependencyEdge>,
    decompositionHint: Option<string>)

  datatype TestResult = TestResult(command: string, exitCode: int)

  datatype WorkerEvidence = WorkerEvidence(
    workerTaskId: string,
    workerAgentId: string,
    status: string,
    runId: Option<string>,
    commitSha: Option<string>,
    changedFiles: seq<string>,
    testResults: seq<TestResult>,
    diffStat: Option<string>,
    summary: Option<string>)

  datatype ReviewEvidence = ReviewEvidence(reviewRevision: int, workerEvidence: seq<WorkerEvidence>)

  datatype AssignmentPackage = AssignmentPackage(
    leaderTaskId: string,
    phase: string,
    organizationId: string,
    projectId: string,
    repositoryId: string,
    repositoryTask: RepositoryTaskFacts,
    workerRoster: seq<WorkerRosterEntry>,
    safetyEnvelope: SafetyEnvelope,
    advisoryContext: AdvisoryContext,
    reviewEvidence: Option<ReviewEvidence>)

  datatype EngineeringSpec = EngineeringSpec(summary: string, markdown: string)

  datatype PlannedWorkerTask = PlannedWorkerTask(
    nodeId: string,
    assignee: string,
    title: string,
    instruction: string,
    allowedPaths: seq<string>,
    tests: seq<string>,
    databaseChange: Option<map<Field, Json>>)

  datatype Provenance = Provenance(sessionThreadId: string, turnId: Option<string>)

  datatype PlanDecision = PlanDecision(
    engineeringSpec: EngineeringSpec,
    taskDag: Dag,
    workerTasks: seq<PlannedWorkerTask>,
    provenance: Provenance)

  datatype ReviewFinding = ReviewFinding(workerTaskId: string, note: string, reworkInstruction: Option<string>)

  datatype ReviewDecision = ReviewDecision(
    verdict: string,
    summary: string,
    findings: seq<ReviewFinding>,
    provenance: Provenance)

  datatype PlanReceipt = PlanReceipt(leaderTaskId: string, planRevision: int, workerTaskIds: seq<string>)

  datatype ReviewReceipt = ReviewReceipt(
    leaderTaskId: string,
    verdict: string,
    reviewRevision: int,
    leaderTaskStatus: string,
    reworkTaskIds: seq<string>)
}
