/** Which records the leader-document readers produce: the limits of the schemas, stated on
    the records, and both directions between them and the documents. */
module LeaderFits {
  import opened Common
  import opened JsonValues
  import opened LeaderRecords
  import opened TaskDag
  import opened Uuids
  import opened Wire
  import opened LeaderWire
  import PlanCheck

  // --- The parts of an assignment package ---------------------------------------------------

  predicate FactsFit(r: RepositoryTaskFacts) {
    Within(r.title, 1, MAX_TITLE) && Within(r.instruction, 1, MAX_TEXT) && Within(r.acceptance, 0, MAX_TEXT)
  }

  predicate RosterEntryFits(r: WorkerRosterEntry) {
    Canonical(r.workerAgentId) && Within(r.workerName, 1, LeaderWire.MAX_NAME) && NoneEmpty(r.responsibilityPaths)
  }

  predicate EnvelopeFits(r: SafetyEnvelope) {
    && r.allowedPathRoots != [] && NoneEmpty(r.allowedPathRoots)
    && NoneEmpty(r.testPaths) && NoneEmpty(r.testCommands)
  }

  predicate DependencyFits(r: DependencyEdge) {
    Canonical(r.upstream) && Canonical(r.downstream)
  }

  predicate AdvisoryFits(r: AdvisoryContext) {
    && OptionalWithin(r.discoveryEvidence, MAX_TEXT) && OptionalWithin(r.decompositionHint, MAX_TEXT)
    && forall e | e in r.dependencyEdges :: DependencyFits(e)
  }

  predicate TestResultFits(r: TestResult) {
    Within(r.command, 1, MAX_TEXT)
  }

  predicate CommitFits(sha: Option<string>) {
    sha.Some? ==> Within(sha.value, 7, 40) && CommitShape(sha.value)
  }

  predicate WorkerEvidenceFits(r: WorkerEvidence) {
    && Canonical(r.workerTaskId) && Canonical(r.workerAgentId) && OneOf(r.status, EVIDENCE_STATUSES)
    && (r.runId.Some? ==> Canonical(r.runId.value)) && CommitFits(r.commitSha)
    && NoneEmpty(r.changedFiles) && (forall t | t in r.testResults :: TestResultFits(t))
    && OptionalWithin(r.diffStat, MAX_TEXT) && OptionalWithin(r.summary, MAX_TEXT)
  }

  predicate ReviewEvidenceFits(r: ReviewEvidence) {
    r.reviewRevision >= 1 && r.workerEvidence != [] && forall e | e in r.workerEvidence :: WorkerEvidenceFits(e)
  }

  predicate PackageFits(p: AssignmentPackage) {
    && Canonical(p.leaderTaskId) && Canonical(p.organizationId) && Canonical(p.projectId) && Canonical(p.repositoryId)
    && OneOf(p.phase, PHASES) && FactsFit(p.repositoryTask)
    && p.workerRoster != [] && (forall e | e in p.workerRoster :: RosterEntryFits(e))
    && EnvelopeFits(p.safetyEnvelope) && AdvisoryFits(p.advisoryContext)
    && (p.reviewEvidence.Some? ==> ReviewEvidenceFits(p.reviewEvidence.value))
    && PhaseFits(p)
  }

  lemma FactsRead(j: Json, x: RepositoryTaskFacts)
    requires ReadFacts(j) == Success(x)
    ensures FactsFit(x)
  {
  }

  lemma FactsWritten(x: RepositoryTaskFacts)
    requires FactsFit(x)
    ensures ReadFacts(WriteFacts(x)) == Success(x)
  {
  }

  lemma RosterEntryRead(j: Json, x: WorkerRosterEntry)
    requires ReadRosterEntry(j) == Success(x)
    ensures RosterEntryFits(x)
  {
    hide Uuid, Strings, Canonical, NoneEmpty;
    UuidFits(j.fields, WorkerAgentId);
    StringsFit(j.fields, ResponsibilityPaths, 0);
  }

  lemma RosterEntryWritten(x: WorkerRosterEntry)
    requires RosterEntryFits(x)
    ensures ReadRosterEntry(WriteRosterEntry(x)) == Success(x)
  {
    hide Uuid, Strings, Canonical, NoneEmpty, WriteStrings;
    var g := WriteRosterEntry(x).fields;
    UuidWritten(g, WorkerAgentId, x.workerAgentId);
    StringsWritten(g, ResponsibilityPaths, 0, x.responsibilityPaths);
  }

  lemma EnvelopeRead(j: Json, x: SafetyEnvelope)
    requires ReadEnvelope(j) == Success(x)
    ensures EnvelopeFits(x)
  {
    hide Strings, NoneEmpty;
    StringsFit(j.fields, AllowedPathRoots, 1);
    StringsFit(j.fields, TestPaths, 0);
    StringsFit(j.fields, TestCommands, 0);
  }

  lemma EnvelopeWritten(x: SafetyEnvelope)
    requires EnvelopeFits(x)
    ensures ReadEnvelope(WriteEnvelope(x)) == Success(x)
  {
    hide Strings, NoneEmpty, WriteStrings;
    var g := WriteEnvelope(x).fields;
    StringsWritten(g, AllowedPathRoots, 1, x.allowedPathRoots);
    StringsWritten(g, TestPaths, 0, x.testPaths);
    StringsWritten(g, TestCommands, 0, x.testCommands);
  }

  lemma DependencyRead(j: Json, x: DependencyEdge)
    requires ReadDependency(j) == Success(x)
    ensures DependencyFits(x)
  {
    hide Uuid, Canonical;
    UuidFits(j.fields, UpstreamRepositoryId);
    UuidFits(j.fields, DownstreamRepositoryId);
  }

  lemma DependencyWritten(x: DependencyEdge)
    requires DependencyFits(x)
    ensures ReadDependency(WriteDependency(x)) == Success(x)
  {
    hide Uuid, Canonical;
    var g := WriteDependency(x).fields;
    UuidWritten(g, UpstreamRepositoryId, x.upstream);
    UuidWritten(g, DownstreamRepositoryId, x.downstream);
  }

  lemma AdvisoryRead(j: Json, x: AdvisoryContext)
    requires ReadAdvisory(j) == Success(x)
    ensures AdvisoryFits(x)
  {
    hide ReadAll, ReadDependency, DependencyFits, OptionalText;
    var f := j.fields;
    var items := if Missing(f, DependencyEdges) then [] else f[DependencyEdges].items;
    ReadAllEach(items, x.dependencyEdges, ReadDependency);
    forall i | 0 <= i < |x.dependencyEdges| ensures DependencyFits(x.dependencyEdges[i]) {
      DependencyRead(items[i], x.dependencyEdges[i]);
    }
    OptionalFits(f, DiscoveryEvidence, MAX_TEXT);
    OptionalFits(f, DecompositionHint, MAX_TEXT);
  }

  lemma AdvisoryWritten(x: AdvisoryContext)
    requires AdvisoryFits(x)
    ensures ReadAdvisory(WriteAdvisory(x)) == Success(x)
  {
    hide ReadAll, WriteAll, ReadDependency, WriteDependency, DependencyFits, OptionalText, OptionalWithin;
    var g := WriteAdvisory(x).fields;
    forall e | e in x.dependencyEdges ensures ReadDependency(WriteDependency(e)) == Success(e) {
      DependencyWritten(e);
    }
    ReadAllWritten(x.dependencyEdges, ReadDependency, WriteDependency);
    NothingToRead();
    OptionalWritten(g, DiscoveryEvidence, MAX_TEXT, x.discoveryEvidence);
    OptionalWritten(g, DecompositionHint, MAX_TEXT, x.decompositionHint);
  }

  lemma NothingToRead()
    ensures ReadAll([], ReadDependency) == Success([])
  {
  }

  lemma CommitRead(f: map<Field, Json>)
    requires ReadCommit(f).Success?
    ensures CommitFits(ReadCommit(f).value)
  {
  }

  lemma CommitWritten(g: map<Field, Json>, sha: Option<string>)
    requires HoldsOptional(g, CommitSha, sha) && CommitFits(sha)
    ensures ReadCommit(g) == Success(sha)
  {
  }

  lemma WorkerEvidenceRead(j: Json, x: WorkerEvidence)
    requires ReadWorkerEvidence(j) == Success(x)
    ensures WorkerEvidenceFits(x)
  {
    hide Uuid, OptionalUuid, Enum, ReadCommit, Strings, ReadAll, OptionalText, ReadTestResult,
         Canonical, OneOf, CommitFits, NoneEmpty, OptionalWithin;
    var f := j.fields;
    UuidFits(f, WorkerTaskId);
    UuidFits(f, WorkerAgentId);
    EnumFits(f, StatusField, EVIDENCE_STATUSES);
    OptionalUuidFits(f, RunId);
    CommitRead(f);
    StringsFit(f, ChangedFiles, 0);
    ResultsRead(f[TestResults].items, x.testResults);
    OptionalFits(f, DiffStat, MAX_TEXT);
    OptionalFits(f, Summary, MAX_TEXT);
  }

  lemma ResultsRead(items: seq<Json>, xs: seq<TestResult>)
    requires ReadAll(items, ReadTestResult) == Success(xs)
    ensures forall t | t in xs :: TestResultFits(t)
  {
    ReadAllEach(items, xs, ReadTestResult);
  }

  lemma WorkerEvidenceWritten(x: WorkerEvidence)
    requires WorkerEvidenceFits(x)
    ensures ReadWorkerEvidence(WriteWorkerEvidence(x)) == Success(x)
  {
    hide WorkerEvidenceFrom, WriteStrings, WriteTestResult, Nullable, WorkerEvidenceFits;
    var g := WriteWorkerEvidence(x).fields;
    assert EVIDENCE_FIELDS <= g.Keys <= EVIDENCE_FIELDS + {DiffStat, Summary};
    WorkerEvidenceFields(g, x);
  }

  lemma WorkerEvidenceFields(g: map<Field, Json>, x: WorkerEvidence)
    requires WorkerEvidenceFits(x) && EVIDENCE_FIELDS <= g.Keys && g == WriteWorkerEvidence(x).fields
    ensures WorkerEvidenceFrom(g) == Success(x)
  {
    hide Uuid, OptionalUuid, Enum, ReadCommit, Strings, WriteStrings, ReadAll, OptionalText, ReadTestResult,
         WriteTestResult, Canonical, OneOf, CommitFits, NoneEmpty, OptionalWithin;
    UuidWritten(g, WorkerTaskId, x.workerTaskId);
    UuidWritten(g, WorkerAgentId, x.workerAgentId);
    EnumWritten(g, StatusField, EVIDENCE_STATUSES, x.status);
    OptionalUuidWritten(g, RunId, x.runId);
    CommitWritten(g, x.commitSha);
    StringsWritten(g, ChangedFiles, 0, x.changedFiles);
    ResultsWritten(x.testResults);
    OptionalWritten(g, DiffStat, MAX_TEXT, x.diffStat);
    OptionalWritten(g, Summary, MAX_TEXT, x.summary);
  }

  lemma ResultsWritten(xs: seq<TestResult>)
    requires forall t | t in xs :: TestResultFits(t)
    ensures ReadAll(WriteAll(xs, WriteTestResult), ReadTestResult) == Success(xs)
  {
    ReadAllWritten(xs, ReadTestResult, WriteTestResult);
  }

  lemma ReviewEvidenceRead(j: Json, x: ReviewEvidence)
    requires ReadReviewEvidence(j) == Success(x)
    ensures ReviewEvidenceFits(x)
  {
    hide ReadAll, ReadWorkerEvidence, WorkerEvidenceFits;
    var items := j.fields[WorkerEvidenceField].items;
    ReadAllEach(items, x.workerEvidence, ReadWorkerEvidence);
    forall i | 0 <= i < |x.workerEvidence| ensures WorkerEvidenceFits(x.workerEvidence[i]) {
      WorkerEvidenceRead(items[i], x.workerEvidence[i]);
    }
  }

  lemma ReviewEvidenceWritten(x: ReviewEvidence)
    requires ReviewEvidenceFits(x)
    ensures ReadReviewEvidence(WriteReviewEvidence(x)) == Success(x)
  {
    hide ReadAll, ReadWorkerEvidence, WriteWorkerEvidence, WorkerEvidenceFits;
    forall e | e in x.workerEvidence ensures ReadWorkerEvidence(WriteWorkerEvidence(e)) == Success(e) {
      WorkerEvidenceWritten(e);
    }
    ReadAllWritten(x.workerEvidence, ReadWorkerEvidence, WriteWorkerEvidence);
  }

  lemma RosterRead(items: seq<Json>, xs: seq<WorkerRosterEntry>)
    requires ReadAll(items, ReadRosterEntry) == Success(xs)
    ensures |xs| == |items| && forall e | e in xs :: RosterEntryFits(e)
  {
    hide ReadRosterEntry, RosterEntryFits;
    ReadAllEach(items, xs, ReadRosterEntry);
    forall i | 0 <= i < |xs| ensures RosterEntryFits(xs[i]) {
      RosterEntryRead(items[i], xs[i]);
    }
  }

  lemma RosterWritten(xs: seq<WorkerRosterEntry>)
    requires forall e | e in xs :: RosterEntryFits(e)
    ensures ReadAll(WriteAll(xs, WriteRosterEntry), ReadRosterEntry) == Success(xs)
  {
    hide ReadRosterEntry, WriteRosterEntry, RosterEntryFits;
    forall e | e in xs ensures ReadRosterEntry(WriteRosterEntry(e)) == Success(e) {
      RosterEntryWritten(e);
    }
    ReadAllWritten(xs, ReadRosterEntry, WriteRosterEntry);
  }

  lemma EvidenceRead(j: Json, x: Option<ReviewEvidence>)
    requires ReadOptionalEvidence(j) == Success(x)
    ensures x.Some? ==> ReviewEvidenceFits(x.value)
  {
    hide ReadReviewEvidence, ReviewEvidenceFits;
    if x.Some? {
      ReviewEvidenceRead(j, x.value);
    }
  }

  lemma EvidenceWritten(x: Option<ReviewEvidence>)
    requires x.Some? ==> ReviewEvidenceFits(x.value)
    ensures ReadOptionalEvidence(if x.Some? then WriteReviewEvidence(x.value) else Null) == Success(x)
  {
    hide ReadReviewEvidence, ReviewEvidenceFits;
    if x.Some? {
      ReviewEvidenceWritten(x.value);
    }
  }

  /** Whatever package is read fits its schema. */
  lemma PackageRead(j: Json, p: AssignmentPackage)
    requires ReadPackage(j) == Success(p)
    ensures PackageFits(p)
  {
    hide Uuid, Enum, ReadAll, ReadFacts, ReadRosterEntry, ReadEnvelope, ReadAdvisory, ReadReviewEvidence,
         ReadOptionalEvidence, PhaseFits, Canonical, OneOf, FactsFit, RosterEntryFits, EnvelopeFits, AdvisoryFits,
         ReviewEvidenceFits;
    var f := j.fields;
    UuidFits(f, LeaderTaskId);
    EnumFits(f, Phase, PHASES);
    UuidFits(f, OrganizationId);
    UuidFits(f, ProjectId);
    UuidFits(f, RepositoryId);
    FactsRead(f[RepositoryTask], p.repositoryTask);
    RosterRead(f[WorkerRoster].items, p.workerRoster);
    EnvelopeRead(f[SafetyEnvelopeField], p.safetyEnvelope);
    AdvisoryRead(f[AdvisoryContextField], p.advisoryContext);
    EvidenceRead(f[ReviewEvidenceField], p.reviewEvidence);
  }

  /** Every package that fits is read back from its own output, field for field. */
  lemma PackageWritten(p: AssignmentPackage)
    requires PackageFits(p)
    ensures ReadPackage(WritePackage(p)) == Success(p)
  {
    hide PackageFrom, WriteFacts, WriteRosterEntry, WriteEnvelope, WriteAdvisory, WriteReviewEvidence, PackageFits;
    assert WritePackage(p).fields.Keys == PACKAGE_FIELDS;
    PackageFields(WritePackage(p).fields, p);
  }

  lemma PackageFields(g: map<Field, Json>, p: AssignmentPackage)
    requires PackageFits(p) && PACKAGE_FIELDS <= g.Keys && g == WritePackage(p).fields
    ensures PackageFrom(g) == Success(p)
  {
    hide Uuid, Enum, ReadAll, ReadFacts, WriteFacts, ReadRosterEntry, WriteRosterEntry, ReadEnvelope, WriteEnvelope,
         ReadAdvisory, WriteAdvisory, ReadReviewEvidence, WriteReviewEvidence, ReadOptionalEvidence, PhaseFits,
         Canonical, OneOf, FactsFit, RosterEntryFits, EnvelopeFits, AdvisoryFits, ReviewEvidenceFits;
    UuidWritten(g, LeaderTaskId, p.leaderTaskId);
    EnumWritten(g, Phase, PHASES, p.phase);
    UuidWritten(g, OrganizationId, p.organizationId);
    UuidWritten(g, ProjectId, p.projectId);
    UuidWritten(g, RepositoryId, p.repositoryId);
    FactsWritten(p.repositoryTask);
    RosterWritten(p.workerRoster);
    EnvelopeWritten(p.safetyEnvelope);
    AdvisoryWritten(p.advisoryContext);
    EvidenceWritten(p.reviewEvidence);
  }

  // --- Decisions -----------------------------------------------------------------------------

  predicate SpecFits(r: EngineeringSpec) {
    Within(r.summary, 1, MAX_SPEC_SUMMARY) && Within(r.markdown, 1, MAX_TEXT)
  }

  predicate NodeFits(id: string) {
    Within(id, 1, MAX_NODE_ID)
  }

  predicate EdgeFits(e: Edge) {
    NodeFits(e.fromNode) && NodeFits(e.toNode)
  }

  predicate DagFits(d: Dag) {
    d.nodes != [] && (forall n | n in d.nodes :: NodeFits(n)) && forall e | e in d.edges :: EdgeFits(e)
  }

  predicate TaskFits(r: PlannedWorkerTask) {
    && NodeFits(r.nodeId) && Canonical(r.assignee)
    && Within(r.title, 1, MAX_TITLE) && Within(r.instruction, 1, MAX_TEXT)
    && r.allowedPaths != [] && NoneEmpty(r.allowedPaths) && NoneEmpty(r.tests)
  }

  predicate ProvenanceFits(r: Provenance) {
    Within(r.sessionThreadId, 1, MAX_THREAD_ID) && OptionalWithin(r.turnId, MAX_THREAD_ID)
  }

  ghost predicate PlanFits(p: PlanDecision) {
    && SpecFits(p.engineeringSpec) && DagFits(p.taskDag)
    && p.workerTasks != [] && (forall t | t in p.workerTasks :: TaskFits(t))
    && ProvenanceFits(p.provenance)
    && PlanCheck.Executable(p)
  }

  predicate FindingFits(r: ReviewFinding) {
    Canonical(r.workerTaskId) && Within(r.note, 1, MAX_NOTE) && OptionalWithin(r.reworkInstruction, MAX_TEXT)
  }

  predicate ReviewFits(r: ReviewDecision) {
    && OneOf(r.verdict, VERDICTS) && Within(r.summary, 1, MAX_SUMMARY)
    && (forall f | f in r.findings :: FindingFits(f))
    && ProvenanceFits(r.provenance) && VerdictFits(r)
  }

  lemma SpecRead(j: Json, x: EngineeringSpec)
    requires ReadSpec(j) == Success(x)
    ensures SpecFits(x)
  {
  }

  lemma SpecWritten(x: EngineeringSpec)
    requires SpecFits(x)
    ensures ReadSpec(WriteSpec(x)) == Success(x)
  {
  }

  lemma DagRead(j: Json, x: Dag)
    requires ReadDag(j) == Success(x)
    ensures DagFits(x)
  {
    NodesRead(j.fields[Nodes].items, x.nodes);
    EdgesRead(j.fields[Edges].items, x.edges);
    hide ReadAll, ReadNode, ReadEdge, NodeFits, EdgeFits;
  }

  lemma NodesRead(items: seq<Json>, nodes: seq<string>)
    requires ReadAll(items, ReadNode) == Success(nodes)
    ensures |nodes| == |items| && forall n | n in nodes :: NodeFits(n)
  {
    ReadAllEach(items, nodes, ReadNode);
  }

  lemma EdgesRead(items: seq<Json>, edges: seq<Edge>)
    requires ReadAll(items, ReadEdge) == Success(edges)
    ensures forall e | e in edges :: EdgeFits(e)
  {
    ReadAllEach(items, edges, ReadEdge);
  }

  lemma DagWritten(x: Dag)
    requires DagFits(x)
    ensures ReadDag(WriteDag(x)) == Success(x)
  {
    hide ReadAll, WriteAll;
    ReadAllWritten(x.nodes, ReadNode, WriteNode);
    ReadAllWritten(x.edges, ReadEdge, WriteEdge);
    WriteAllLength(x.nodes, WriteNode);
  }

  lemma WriteAllLength<T>(xs: seq<T>, write: T -> Json)
    ensures |WriteAll(xs, write)| == |xs|
  {
  }

  lemma TaskRead(j: Json, x: PlannedWorkerTask)
    requires ReadPlannedTask(j) == Success(x)
    ensures TaskFits(x)
  {
    hide Uuid, Strings, Canonical, NoneEmpty;
    UuidFits(j.fields, AssigneeWorkerAgentId);
    StringsFit(j.fields, AllowedPaths, 1);
    StringsFit(j.fields, Tests, 0);
  }

  lemma TaskWritten(x: PlannedWorkerTask)
    requires TaskFits(x)
    ensures ReadPlannedTask(WritePlannedTask(x)) == Success(x)
  {
    hide Uuid, Strings, Canonical, NoneEmpty, WriteStrings;
    var g := WritePlannedTask(x).fields;
    UuidWritten(g, AssigneeWorkerAgentId, x.assignee);
    StringsWritten(g, AllowedPaths, 1, x.allowedPaths);
    StringsWritten(g, Tests, 0, x.tests);
    assert ReadDatabaseChange(g) == Success(x.databaseChange);
  }

  lemma TasksRead(items: seq<Json>, xs: seq<PlannedWorkerTask>)
    requires ReadAll(items, ReadPlannedTask) == Success(xs)
    ensures |xs| == |items| && forall t | t in xs :: TaskFits(t)
  {
    hide ReadPlannedTask, TaskFits;
    ReadAllEach(items, xs, ReadPlannedTask);
    forall i | 0 <= i < |xs| ensures TaskFits(xs[i]) {
      TaskRead(items[i], xs[i]);
    }
  }

  lemma TasksWritten(xs: seq<PlannedWorkerTask>)
    requires forall t | t in xs :: TaskFits(t)
    ensures ReadAll(WriteAll(xs, WritePlannedTask), ReadPlannedTask) == Success(xs)
  {
    hide ReadPlannedTask, WritePlannedTask, TaskFits;
    forall t | t in xs ensures ReadPlannedTask(WritePlannedTask(t)) == Success(t) {
      TaskWritten(t);
    }
    ReadAllWritten(xs, ReadPlannedTask, WritePlannedTask);
  }

  lemma ProvenanceRead(j: Json, x: Provenance)
    requires ReadProvenance(j) == Success(x)
    ensures ProvenanceFits(x)
  {
    OptionalFits(j.fields, TurnId, MAX_THREAD_ID);
  }

  lemma ProvenanceWritten(x: Provenance)
    requires ProvenanceFits(x)
    ensures ReadProvenance(WriteProvenance(x)) == Success(x)
  {
    hide OptionalText, OptionalWithin;
    OptionalWritten(WriteProvenance(x).fields, TurnId, MAX_THREAD_ID, x.turnId);
  }

  lemma PlanRead(j: Json, p: PlanDecision)
    requires ReadPlan(j) == Success(p)
    ensures PlanFits(p)
  {
    hide ReadAll, ReadSpec, ReadDag, ReadPlannedTask, ReadProvenance, PlanCheck.Executable,
         SpecFits, DagFits, TaskFits, ProvenanceFits;
    var f := j.fields;
    SpecRead(f[EngineeringSpecField], p.engineeringSpec);
    DagRead(f[TaskDagField], p.taskDag);
    TasksRead(f[WorkerTasks].items, p.workerTasks);
    ProvenanceRead(f[ProvenanceField], p.provenance);
  }

  /** Every plan that fits, and so can be carried out, is read back from its own output with
      its graph, its tasks and everything else it says. */
  lemma PlanWritten(p: PlanDecision)
    requires PlanFits(p)
    ensures ReadPlan(WritePlan(p)) == Success(p)
  {
    hide ReadAll, WriteAll, ReadSpec, WriteSpec, ReadDag, WriteDag, ReadPlannedTask, WritePlannedTask,
         ReadProvenance, WriteProvenance, PlanCheck.Executable, SpecFits, DagFits, TaskFits, ProvenanceFits;
    SpecWritten(p.engineeringSpec);
    DagWritten(p.taskDag);
    TasksWritten(p.workerTasks);
    WriteAllLength(p.workerTasks, WritePlannedTask);
    ProvenanceWritten(p.provenance);
  }

  lemma FindingRead(j: Json, x: ReviewFinding)
    requires ReadFinding(j) == Success(x)
    ensures FindingFits(x)
  {
    hide Uuid, Canonical;
    UuidFits(j.fields, WorkerTaskId);
    OptionalFits(j.fields, ReworkInstruction, MAX_TEXT);
  }

  lemma FindingWritten(x: ReviewFinding)
    requires FindingFits(x)
    ensures ReadFinding(WriteFinding(x)) == Success(x)
  {
    hide Uuid, Canonical, OptionalText, OptionalWithin;
    var g := WriteFinding(x).fields;
    UuidWritten(g, WorkerTaskId, x.workerTaskId);
    OptionalWritten(g, ReworkInstruction, MAX_TEXT, x.reworkInstruction);
  }

  lemma FindingsRead(items: seq<Json>, xs: seq<ReviewFinding>)
    requires ReadAll(items, ReadFinding) == Success(xs)
    ensures forall f | f in xs :: FindingFits(f)
  {
    hide ReadFinding, FindingFits;
    ReadAllEach(items, xs, ReadFinding);
    forall i | 0 <= i < |xs| ensures FindingFits(xs[i]) {
      FindingRead(items[i], xs[i]);
    }
  }

  lemma FindingsWritten(xs: seq<ReviewFinding>)
    requires forall f | f in xs :: FindingFits(f)
    ensures ReadAll(WriteAll(xs, WriteFinding), ReadFinding) == Success(xs)
  {
    hide ReadFinding, WriteFinding, FindingFits;
    forall f | f in xs ensures ReadFinding(WriteFinding(f)) == Success(f) {
      FindingWritten(f);
    }
    ReadAllWritten(xs, ReadFinding, WriteFinding);
  }

  lemma ReviewRead(j: Json, r: ReviewDecision)
    requires ReadReview(j) == Success(r)
    ensures ReviewFits(r)
  {
    hide Enum, ReadAll, ReadFinding, ReadProvenance, OneOf, FindingFits, ProvenanceFits, VerdictFits;
    var f := j.fields;
    EnumFits(f, Verdict, VERDICTS);
    FindingsRead(f[Findings].items, r.findings);
    ProvenanceRead(f[ProvenanceField], r.provenance);
  }

  lemma ReviewWritten(r: ReviewDecision)
    requires ReviewFits(r)
    ensures ReadReview(WriteReview(r)) == Success(r)
  {
    hide Enum, ReadAll, WriteAll, ReadFinding, WriteFinding, ReadProvenance, WriteProvenance, OneOf, FindingFits,
         ProvenanceFits, VerdictFits;
    var g := WriteReview(r).fields;
    EnumWritten(g, Verdict, VERDICTS, r.verdict);
    FindingsWritten(r.findings);
    ProvenanceWritten(r.provenance);
  }

  // --- Receipts -------------------------------------------------------------------------------

  predicate PlanReceiptFits(r: PlanReceipt) {
    && Canonical(r.leaderTaskId) && r.planRevision >= 1
    && r.workerTaskIds != [] && forall u | u in r.workerTaskIds :: Canonical(u)
  }

  predicate ReviewReceiptFits(r: ReviewReceipt) {
    && Canonical(r.leaderTaskId) && OneOf(r.verdict, VERDICTS) && r.reviewRevision >= 1
    && OneOf(r.leaderTaskStatus, TASK_STATUSES) && forall u | u in r.reworkTaskIds :: Canonical(u)
  }

  lemma PlanReceiptRead(j: Json, r: PlanReceipt)
    requires ReadPlanReceipt(j) == Success(r)
    ensures PlanReceiptFits(r)
  {
    hide Uuid, UuidList, Canonical;
    UuidFits(j.fields, LeaderTaskId);
    UuidListFits(j.fields, WorkerTaskIds, 1);
  }

  lemma PlanReceiptWritten(r: PlanReceipt)
    requires PlanReceiptFits(r) && Distinct(r.workerTaskIds)
    ensures ReadPlanReceipt(WritePlanReceipt(r)) == Success(r)
  {
    hide Uuid, UuidList, WriteStrings, Canonical, Distinct;
    var g := WritePlanReceipt(r).fields;
    UuidWritten(g, LeaderTaskId, r.leaderTaskId);
    UuidListWritten(g, WorkerTaskIds, 1, r.workerTaskIds);
  }

  lemma ReviewReceiptRead(j: Json, r: ReviewReceipt)
    requires ReadReviewReceipt(j) == Success(r)
    ensures ReviewReceiptFits(r)
  {
    hide Uuid, Enum, UuidList, Canonical, OneOf;
    var f := j.fields;
    UuidFits(f, LeaderTaskId);
    EnumFits(f, Verdict, VERDICTS);
    EnumFits(f, LeaderTaskStatus, TASK_STATUSES);
    UuidListFits(f, ReworkTaskIds, 0);
  }

  lemma ReviewReceiptWritten(r: ReviewReceipt)
    requires ReviewReceiptFits(r) && Distinct(r.reworkTaskIds)
    ensures ReadReviewReceipt(WriteReviewReceipt(r)) == Success(r)
  {
    hide Uuid, Enum, UuidList, WriteStrings, Canonical, OneOf, Distinct;
    var g := WriteReviewReceipt(r).fields;
    UuidWritten(g, LeaderTaskId, r.leaderTaskId);
    EnumWritten(g, Verdict, VERDICTS, r.verdict);
    EnumWritten(g, LeaderTaskStatus, TASK_STATUSES, r.leaderTaskStatus);
    UuidListWritten(g, ReworkTaskIds, 0, r.reworkTaskIds);
  }

  // --- What an accepted plan says about its document -------------------------------------------

  /** The list names these nodes, one for one and in order. */
  predicate ListsNodes(items: seq<Json>, nodes: seq<string>) {
    && |items| == |nodes|
    && forall i | 0 <= i < |nodes| ::
         items[i].Obj? && NodeId in items[i].fields && items[i].fields[NodeId] == Str(nodes[i])
  }

  /** The list names these edges' endpoints, one for one and in order. */
  predicate ListsEdges(items: seq<Json>, edges: seq<Edge>) {
    && |items| == |edges|
    && forall i | 0 <= i < |edges| ::
         && items[i].Obj? && FromNode in items[i].fields && ToNode in items[i].fields
         && items[i].fields[FromNode] == Str(edges[i].fromNode) && items[i].fields[ToNode] == Str(edges[i].toNode)
  }

  /** The document's graph is the plan's: as many nodes and edges, in the same order, with the
      same names and endpoints. */
  lemma PlanKeepsItsGraph(j: Json, p: PlanDecision)
    requires ReadPlan(j) == Success(p)
    ensures j.Obj? && TaskDagField in j.fields && j.fields[TaskDagField].Obj?
    ensures && var g := j.fields[TaskDagField].fields;
               && Nodes in g && g[Nodes].Arr? && ListsNodes(g[Nodes].items, p.taskDag.nodes)
               && Edges in g && g[Edges].Arr? && ListsEdges(g[Edges].items, p.taskDag.edges)
  {
    hide ReadAll, ReadSpec, ReadPlannedTask, ReadProvenance, PlanCheck.Executable, ListsNodes, ListsEdges;
    DagSays(j.fields[TaskDagField], p.taskDag);
  }

  lemma DagSays(j: Json, d: Dag)
    requires ReadDag(j) == Success(d)
    ensures j.Obj?
    ensures && var g := j.fields;
               && Nodes in g && g[Nodes].Arr? && ListsNodes(g[Nodes].items, d.nodes)
               && Edges in g && g[Edges].Arr? && ListsEdges(g[Edges].items, d.edges)
  {
    hide ReadAll, ReadNode, ReadEdge, ListsNodes, ListsEdges;
    NodesSay(j.fields[Nodes].items, d.nodes);
    EdgesSay(j.fields[Edges].items, d.edges);
  }

  lemma NodesSay(items: seq<Json>, nodes: seq<string>)
    requires ReadAll(items, ReadNode) == Success(nodes)
    ensures ListsNodes(items, nodes)
  {
    ReadAllEach(items, nodes, ReadNode);
  }

  lemma EdgesSay(items: seq<Json>, edges: seq<Edge>)
    requires ReadAll(items, ReadEdge) == Success(edges)
    ensures ListsEdges(items, edges)
  {
    ReadAllEach(items, edges, ReadEdge);
  }

  /** The document's tasks are the plan's, one for one and in order. */
  lemma PlanKeepsItsTasks(j: Json, p: PlanDecision)
    requires ReadPlan(j) == Success(p)
    ensures j.Obj? && WorkerTasks in j.fields && j.fields[WorkerTasks].Arr?
    ensures |j.fields[WorkerTasks].items| == |p.workerTasks|
    ensures forall i | 0 <= i < |p.workerTasks| :: TaskSays(j.fields[WorkerTasks].items[i], p.workerTasks[i])
  {
    hide ReadAll, ReadSpec, ReadDag, ReadPlannedTask, ReadProvenance, PlanCheck.Executable, TaskSays;
    var items := j.fields[WorkerTasks].items;
    ReadAllEach(items, p.workerTasks, ReadPlannedTask);
    forall i | 0 <= i < |p.workerTasks| ensures TaskSays(items[i], p.workerTasks[i]) {
      TaskReadSays(items[i], p.workerTasks[i]);
    }
  }

  predicate TaskSays(j: Json, t: PlannedWorkerTask) {
    && j.Obj? && {NodeId, AssigneeWorkerAgentId, Title, Instruction, AllowedPaths, Tests} <= j.fields.Keys
    && j.fields[NodeId] == Str(t.nodeId)
    && j.fields[AssigneeWorkerAgentId].Str? && ParseUuid(j.fields[AssigneeWorkerAgentId].text) == Some(t.assignee)
    && (DatabaseChange in j.fields <==> t.databaseChange.Some?)
    && (t.databaseChange.Some? ==> j.fields[DatabaseChange] == Obj(t.databaseChange.value))
    && j.fields[Title] == Str(t.title) && j.fields[Instruction] == Str(t.instruction)
    && j.fields[AllowedPaths] == WriteStrings(t.allowedPaths) && j.fields[Tests] == WriteStrings(t.tests)
  }

  lemma TaskReadSays(j: Json, t: PlannedWorkerTask)
    requires ReadPlannedTask(j) == Success(t)
    ensures TaskSays(j, t)
  {
    hide Strings, WriteStrings, NoneEmpty, ParseUuid;
    StringsFit(j.fields, AllowedPaths, 1);
    StringsFit(j.fields, Tests, 0);
  }

  // --- What the constructors add to the schemas ------------------------------------------------

  /** A package carries review evidence from review_due on and none before, and its document
      says null instead. */
  lemma EvidenceByPhase(j: Json, p: AssignmentPackage)
    requires ReadPackage(j) == Success(p)
    ensures p.phase in ["planning", "executing"] <==> p.reviewEvidence.None?
    ensures p.phase in ["review_due", "closed"] <==> p.reviewEvidence.Some?
    ensures j.Obj? && ReviewEvidenceField in j.fields
    ensures j.fields[ReviewEvidenceField].Null? <==> p.reviewEvidence.None?
  {
    hide ReadFacts, ReadEnvelope, ReadAdvisory, ReadAll, Uuid, ReadReviewEvidence;
    assert p.phase == PHASES[0] || p.phase == PHASES[1] || p.phase == PHASES[2] || p.phase == PHASES[3];
    assert "planning"[0] == 'p' && "executing"[0] == 'e' && "review_due"[0] == 'r' && "closed"[0] == 'c';
  }

  /** A review that demands rework says in some finding what is to be done again. */
  lemma ReworkSaysWhat(j: Json, r: ReviewDecision)
    requires ReadReview(j) == Success(r)
    ensures r.verdict in ["approve", "request_rework", "escalate"]
    ensures r.verdict == "request_rework" ==>
              exists f :: f in r.findings && f.reworkInstruction.Some? && f.reworkInstruction.value != ""
  {
    hide ReadAll, ReadProvenance;
  }
}
