/** Whatever a leader-document reader accepts, it accepts again from its own writer. */
module LeaderRoundTrips {
  import opened Common
  import opened JsonValues
  import opened LeaderRecords
  import opened Wire
  import opened LeaderWire
  import opened LeaderFits
  import opened Uuids

  lemma Advisory(j: Json, x: AdvisoryContext)
    requires ReadAdvisory(j) == Success(x)
    ensures ReadAdvisory(WriteAdvisory(x)) == Success(x)
  {
    hide ReadAdvisory, WriteAdvisory, AdvisoryFits;
    AdvisoryRead(j, x);
    AdvisoryWritten(x);
  }

  lemma WorkerEvidenceAgain(j: Json, x: WorkerEvidence)
    requires ReadWorkerEvidence(j) == Success(x)
    ensures ReadWorkerEvidence(WriteWorkerEvidence(x)) == Success(x)
  {
    hide ReadWorkerEvidence, WriteWorkerEvidence, WorkerEvidenceFits;
    WorkerEvidenceRead(j, x);
    WorkerEvidenceWritten(x);
  }

  /** Some document is read as exactly the packages within the schema's limits. */
  lemma PackagesAreThoseThatFit(p: AssignmentPackage)
    ensures (exists j :: ReadPackage(j) == Success(p)) <==> PackageFits(p)
  {
    hide ReadPackage, WritePackage, PackageFits;
    if PackageFits(p) {
      PackageWritten(p);
    }
    if j :| ReadPackage(j) == Success(p) {
      PackageRead(j, p);
    }
  }

  lemma PackageRoundTrip(j: Json, p: AssignmentPackage)
    requires ReadPackage(j) == Success(p)
    ensures ReadPackage(WritePackage(p)) == Success(p)
  {
    hide ReadPackage, WritePackage, PackageFits;
    PackageRead(j, p);
    PackageWritten(p);
  }

  lemma PlansAreThoseThatFit(p: PlanDecision)
    ensures (exists j :: ReadPlan(j) == Success(p)) <==> PlanFits(p)
  {
    hide ReadPlan, WritePlan, PlanFits;
    if PlanFits(p) {
      PlanWritten(p);
    }
    if j :| ReadPlan(j) == Success(p) {
      PlanRead(j, p);
    }
  }

  lemma PlanRoundTrip(j: Json, p: PlanDecision)
    requires ReadPlan(j) == Success(p)
    ensures ReadPlan(WritePlan(p)) == Success(p)
  {
    hide ReadPlan, WritePlan, PlanFits;
    PlanRead(j, p);
    PlanWritten(p);
  }

  lemma ReviewsAreThoseThatFit(r: ReviewDecision)
    ensures (exists j :: ReadReview(j) == Success(r)) <==> ReviewFits(r)
  {
    hide ReadReview, WriteReview, ReviewFits;
    if ReviewFits(r) {
      ReviewWritten(r);
    }
    if j :| ReadReview(j) == Success(r) {
      ReviewRead(j, r);
    }
  }

  lemma ReviewRoundTrip(j: Json, r: ReviewDecision)
    requires ReadReview(j) == Success(r)
    ensures ReadReview(WriteReview(r)) == Success(r)
  {
    hide ReadReview, WriteReview, ReviewFits;
    ReviewRead(j, r);
    ReviewWritten(r);
  }

  // --- Receipts: true only of distinct identifiers ----------------------------------------------

  lemma RepeatedPlanReceipt(j: Json, r: PlanReceipt)
    requires ReadPlanReceipt(j) == Success(r) && !Distinct(r.workerTaskIds)
    ensures ReadPlanReceipt(WritePlanReceipt(r)).Failure?
  {
    hide Uuid, UuidList, WriteStrings, Enum, Distinct;
    UuidListRead(j.fields, WorkerTaskIds, 1, WritePlanReceipt(r).fields);
  }

  /** A receipt that was read is read again from its own output exactly when its ids are
      distinct; the reader compares spellings before it parses them. */
  lemma PlanReceiptRoundTrip(j: Json, r: PlanReceipt)
    requires ReadPlanReceipt(j) == Success(r)
    ensures if Distinct(r.workerTaskIds) then ReadPlanReceipt(WritePlanReceipt(r)) == Success(r)
            else ReadPlanReceipt(WritePlanReceipt(r)).Failure?
  {
    hide ReadPlanReceipt, WritePlanReceipt, PlanReceiptFits, Distinct;
    PlanReceiptRead(j, r);
    if Distinct(r.workerTaskIds) {
      PlanReceiptWritten(r);
    } else {
      RepeatedPlanReceipt(j, r);
    }
  }

  lemma RepeatedReviewReceipt(j: Json, r: ReviewReceipt)
    requires ReadReviewReceipt(j) == Success(r) && !Distinct(r.reworkTaskIds)
    ensures ReadReviewReceipt(WriteReviewReceipt(r)).Failure?
  {
    hide Uuid, UuidList, WriteStrings, Enum, Distinct;
    UuidListRead(j.fields, ReworkTaskIds, 0, WriteReviewReceipt(r).fields);
  }

  lemma ReviewReceiptRoundTrip(j: Json, r: ReviewReceipt)
    requires ReadReviewReceipt(j) == Success(r)
    ensures if Distinct(r.reworkTaskIds) then ReadReviewReceipt(WriteReviewReceipt(r)) == Success(r)
            else ReadReviewReceipt(WriteReviewReceipt(r)).Failure?
  {
    hide ReadReviewReceipt, WriteReviewReceipt, ReviewReceiptFits, Distinct;
    ReviewReceiptRead(j, r);
    if Distinct(r.reworkTaskIds) {
      ReviewReceiptWritten(r);
    } else {
      RepeatedReviewReceipt(j, r);
    }
  }

  /** aaaaaaaa-aaaa-aaaa-aaaa-aaaaaaaaaaaa, and the same in capitals. */
  const LOWER_ID := Grouped(seq(32, i => 'a'))
  const UPPER_ID := Grouped(seq(32, i => 'A'))

  lemma SpelledTwice()
    ensures ParseUuid(LOWER_ID) == Some(LOWER_ID) && ParseUuid(UPPER_ID) == Some(LOWER_ID)
  {
    var h := seq(32, i => 'a');
    var k := seq(32, i => 'A');
    hide Grouped, ParseUuid;
    GroupedParses(h);
    GroupedParses(k);
    assert Lower(h) == h && Lower(k) == h;
  }

  /** One identifier in two letter cases makes a receipt the reader takes and then, from
      its own output, refuses. */
  lemma TwoSpellingsBreakReceipts()
    ensures var j := Obj(map[
              SchemaVersion := Str(PLAN_RECEIPT_SCHEMA), LeaderTaskId := Str(LOWER_ID), PlanRevision := Number(1),
              WorkerTaskIds := Arr([Str(LOWER_ID), Str(UPPER_ID)])]);
            ReadPlanReceipt(j).Success? && ReadPlanReceipt(WritePlanReceipt(ReadPlanReceipt(j).value)).Failure?
  {
    SpelledTwice();
    assert LOWER_ID[0] == 'a' && UPPER_ID[0] == 'A';
    BrokenReceipt(LOWER_ID, UPPER_ID);
  }

  lemma BrokenReceipt(id: string, other: string)
    requires id != other && ParseUuid(id) == Some(id) && ParseUuid(other) == Some(id)
    ensures var j := Obj(map[
              SchemaVersion := Str(PLAN_RECEIPT_SCHEMA), LeaderTaskId := Str(id), PlanRevision := Number(1),
              WorkerTaskIds := Arr([Str(id), Str(other)])]);
            ReadPlanReceipt(j).Success? && ReadPlanReceipt(WritePlanReceipt(ReadPlanReceipt(j).value)).Failure?
  {
    hide ParseUuid;
    var j := Obj(map[
      SchemaVersion := Str(PLAN_RECEIPT_SCHEMA), LeaderTaskId := Str(id), PlanRevision := Number(1),
      WorkerTaskIds := Arr([Str(id), Str(other)])]);
    var items := j.fields[WorkerTaskIds].items;
    assert items[0] == Str(id) && items[1] == Str(other);
    assert UuidList(j.fields, WorkerTaskIds, 1).Success?;
    assert Object(j, {SchemaVersion, LeaderTaskId, PlanRevision, WorkerTaskIds}, {}) == Success(j.fields);
    assert Uuid(j.fields, LeaderTaskId) == Success(id);
    assert ReadPlanReceipt(j).Success?;
    var r := ReadPlanReceipt(j).value;
    assert r.workerTaskIds == UuidList(j.fields, WorkerTaskIds, 1).value;
    assert r.workerTaskIds[0] == r.workerTaskIds[1];
    PlanReceiptRoundTrip(j, r);
  }
}
