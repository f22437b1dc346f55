/** Enrollments and bindings in their two versions (contracts.py, agent-bridge v1 and v2). */
module MemberWire {
  import opened Common
  import opened JsonValues
  import opened Wire

  const ENROLLMENT_V1 := "repomesh.agent-bridge.enrollment.v1"
  const ENROLLMENT_V2 := "repomesh.agent-bridge.enrollment.v2"
  const BINDING_V1 := "repomesh.agent-bridge.binding.v1"
  const BINDING_V2 := "repomesh.agent-bridge.binding.v2"
  const WORKER := "worker"
  const REPOSITORY_LEADER := "repository_leader"
  const MEMBER_ROLES := [WORKER, REPOSITORY_LEADER]
  const CODING_PROFILES := ["codex", "claude-code", "kimi"]

  const MAX_NAME := 100
  const MAX_MATRIX_ID := 255
  const MAX_ROOMS := 50
  const MAX_CREDENTIAL_REF := 500
  const MAX_URL := 2000

  datatype CredentialRefs = CredentialRefs(
    matrix: string, model: Option<string>, scm: Option<string>, repomesh: Option<string>)

  /** Which version a record came from. */
  datatype Version = V1 | V2

  datatype Enrollment = Enrollment(
    organizationId: string,
    workerAgentId: string,
    workerName: string,
    teamName: string,
    matrixUserId: string,
    homeserverUrl: string,
    allowedRoomIds: seq<string>,
    endpoint: string,
    codingProfile: string,
    credentialRefs: CredentialRefs,
    displayName: Option<string>,
    role: string,
    version: Version)

  datatype Binding = Binding(
    organizationId: string,
    teamName: string,
    workerAgentId: string,
    workerName: string,
    matrixUserId: string,
    allowedRoomIds: seq<string>,
    role: string,
    version: Version)

  // --- Shapes -----------------------------------------------------------------------------

  function FirstColon(s: string): nat {
    if s == [] || s[0] == ':' then 0 else 1 + FirstColon(s[1..])
  }

  /** sigil, at least one character that is not a colon, a colon, and one line of text;
      like the pattern's "$", a final line feed passes. */
  predicate MatrixId(s: string, sigil: char) {
    var k := FirstColon(s);
    s != [] && s[0] == sigil && 2 <= k < |s| && OneLine(s[k + 1..])
  }

  predicate OneLine(tail: string) {
    var line := if tail != [] && tail[|tail| - 1] == '\n' then tail[..|tail| - 1] else tail;
    line != [] && forall c | c in line :: c != '\n'
  }

  function UserId(f: map<Field, Json>, key: Field): Result<string, Refusal>
    requires key in f
  {
    var s :- Text(f, key, 1, MAX_MATRIX_ID);
    if MatrixId(s, '@') then Success(s) else Failure(BadField(key))
  }

  function RoomIds(f: map<Field, Json>, key: Field): Result<seq<string>, Refusal>
    requires key in f
  {
    var items :- Items(f, key, 1);
    if |items| <= MAX_ROOMS
       && (forall i, j | 0 <= i < j < |items| :: items[i] != items[j])
       && (forall i | 0 <= i < |items| ::
             items[i].Str? && MatrixId(items[i].text, '!') && |items[i].text| <= MAX_MATRIX_ID)
    then Success(seq(|items|, i requires 0 <= i < |items| => items[i].text))
    else Failure(BadField(key))
  }

  /** isHttpUrl stands for the URL parser's verdict on scheme and host. */
  function HttpUrl(f: map<Field, Json>, key: Field, isHttpUrl: string -> bool): Result<string, Refusal>
    requires key in f
  {
    var s :- Text(f, key, 1, MAX_URL);
    if isHttpUrl(s) then Success(s) else Failure(BadField(key))
  }

  // --- Credentials ---------------------------------------------------------------------------

  function ReadRefs(j: Json): Result<CredentialRefs, Refusal> {
    var f :- Object(j, {MatrixRef}, {ModelRef, ScmRef, RepomeshRef});
    var matrix :- OptionalText(f, MatrixRef, MAX_CREDENTIAL_REF);
    var model :- OptionalText(f, ModelRef, MAX_CREDENTIAL_REF);
    var scm :- OptionalText(f, ScmRef, MAX_CREDENTIAL_REF);
    var repomesh :- OptionalText(f, RepomeshRef, MAX_CREDENTIAL_REF);
    if matrix.None? then Failure(BadField(MatrixRef)) else
      Success(CredentialRefs(matrix.value, model, scm, repomesh))
  }

  function WriteRefs(r: CredentialRefs): Json {
    Obj(With(With(With(map[MatrixRef := Str(r.matrix)], ModelRef, r.model), ScmRef, r.scm), RepomeshRef, r.repomesh))
  }

  // --- Enrollments ----------------------------------------------------------------------------

  function EnrollmentSchema(v: Version): string {
    if v.V1? then ENROLLMENT_V1 else ENROLLMENT_V2
  }

  const ENROLLMENT_FIELDS := {
    SchemaVersion, OrganizationId, WorkerAgentId, WorkerName, TeamName, MatrixUserId, MatrixHomeserverUrl,
    AllowedRoomIds, RepomeshEndpoint, CodingProfile, CredentialRefsField}

  function RoleFields(v: Version): set<Field> {
    if v.V2? then {RoleField} else {}
  }

  function ReadRole(f: map<Field, Json>, v: Version): Result<string, Refusal>
    requires RoleFields(v) <= f.Keys
  {
    if v.V1? then Success(WORKER) else
      assert RoleField in RoleFields(v);
      Enum(f, RoleField, MEMBER_ROLES)
  }

  /** The constructor's rule: a known role, and a leader only from version two on. */
  predicate RoleFits(role: string, v: Version) {
    role in MEMBER_ROLES && (v.V1? ==> role == WORKER)
  }

  /** The reader of one version. */
  function ReadEnrollmentAs(j: Json, v: Version, isHttpUrl: string -> bool): Result<Enrollment, Refusal> {
    var f :- Object(j, ENROLLMENT_FIELDS + RoleFields(v), {DisplayName});
    EnrollmentFrom(f, v, isHttpUrl)
  }

  function EnrollmentFrom(f: map<Field, Json>, v: Version, isHttpUrl: string -> bool): Result<Enrollment, Refusal>
    requires ENROLLMENT_FIELDS + RoleFields(v) <= f.Keys
  {
    var _ :- Const(f, SchemaVersion, EnrollmentSchema(v));
    var role :- ReadRole(f, v);
    var profile :- Enum(f, CodingProfile, CODING_PROFILES);
    var organization :- Uuid(f, OrganizationId);
    var agent :- Uuid(f, WorkerAgentId);
    var name :- Text(f, WorkerName, 1, MAX_NAME);
    var team :- Text(f, TeamName, 1, MAX_NAME);
    var user :- UserId(f, MatrixUserId);
    var homeserver :- HttpUrl(f, MatrixHomeserverUrl, isHttpUrl);
    var rooms :- RoomIds(f, AllowedRoomIds);
    var endpoint :- HttpUrl(f, RepomeshEndpoint, isHttpUrl);
    var refs :- ReadRefs(f[CredentialRefsField]);
    var display :- OptionalText(f, DisplayName, MAX_NAME);
    if RoleFits(role, v)
    then Success(Enrollment(organization, agent, name, team, user, homeserver, rooms, endpoint, profile, refs,
                            display, role, v))
    else Failure(BrokenRule)
  }

  /** The reader that lets the document say which version it is. */
  function ReadEnrollment(j: Json, isHttpUrl: string -> bool): Result<Enrollment, Refusal> {
    if !j.Obj? then Failure(NotAnObject)
    else if SchemaVersion in j.fields && j.fields[SchemaVersion] == Str(ENROLLMENT_V2) then
      ReadEnrollmentAs(j, V2, isHttpUrl)
    else if SchemaVersion in j.fields && j.fields[SchemaVersion] == Str(ENROLLMENT_V1) then
      ReadEnrollmentAs(j, V1, isHttpUrl)
    else Failure(BadField(SchemaVersion))
  }

  function WriteEnrollment(e: Enrollment): Json {
    var base := map[
      SchemaVersion := Str(EnrollmentSchema(e.version)), OrganizationId := Str(e.organizationId),
      WorkerAgentId := Str(e.workerAgentId), WorkerName := Str(e.workerName), TeamName := Str(e.teamName),
      MatrixUserId := Str(e.matrixUserId), MatrixHomeserverUrl := Str(e.homeserverUrl),
      AllowedRoomIds := WriteStrings(e.allowedRoomIds), RepomeshEndpoint := Str(e.endpoint),
      CodingProfile := Str(e.codingProfile), CredentialRefsField := WriteRefs(e.credentialRefs)];
    Obj(With(if e.version.V2? then base[RoleField := Str(e.role)] else base, DisplayName, e.displayName))
  }

  // --- Bindings --------------------------------------------------------------------------------

  function BindingSchema(v: Version): string {
    if v.V1? then BINDING_V1 else BINDING_V2
  }

  const BINDING_FIELDS := {
    SchemaVersion, OrganizationId, TeamName, WorkerAgentId, WorkerName, MatrixUserId, AllowedRoomIds, ContainerManaged}

  function ReadBindingAs(j: Json, v: Version): Result<Binding, Refusal> {
    var f :- Object(j, BINDING_FIELDS + RoleFields(v), {});
    BindingFrom(f, v)
  }

  function BindingFrom(f: map<Field, Json>, v: Version): Result<Binding, Refusal>
    requires BINDING_FIELDS + RoleFields(v) <= f.Keys
  {
    var _ :- Const(f, SchemaVersion, BindingSchema(v));
    var role :- ReadRole(f, v);
    if f[ContainerManaged] != Bool(false) then Failure(BadField(ContainerManaged)) else
      var organization :- Uuid(f, OrganizationId);
      var team :- Text(f, TeamName, 1, MAX_NAME);
      var agent :- Uuid(f, WorkerAgentId);
      var name :- Text(f, WorkerName, 1, MAX_NAME);
      var user :- UserId(f, MatrixUserId);
      var rooms :- RoomIds(f, AllowedRoomIds);
      if RoleFits(role, v) then Success(Binding(organization, team, agent, name, user, rooms, role, v))
      else Failure(BrokenRule)
  }

  function WriteBinding(b: Binding): Json {
    var base := map[
      SchemaVersion := Str(BindingSchema(b.version)), OrganizationId := Str(b.organizationId),
      TeamName := Str(b.teamName), WorkerAgentId := Str(b.workerAgentId), WorkerName := Str(b.workerName),
      MatrixUserId := Str(b.matrixUserId), AllowedRoomIds := WriteStrings(b.allowedRoomIds),
      ContainerManaged := Bool(false)];
    Obj(if b.version.V2? then base[RoleField := Str(b.role)] else base)
  }

  // --- Reading back ------------------------------------------------------------------------------

  lemma SchemasDiffer()
    ensures ENROLLMENT_V1 != ENROLLMENT_V2 && BINDING_V1 != BINDING_V2 && WORKER != REPOSITORY_LEADER
  {
    assert ENROLLMENT_V1[|ENROLLMENT_V1| - 1] == '1' && ENROLLMENT_V2[|ENROLLMENT_V2| - 1] == '2';
    assert BINDING_V1[|BINDING_V1| - 1] == '1' && BINDING_V2[|BINDING_V2| - 1] == '2';
    assert WORKER[0] == 'w' && REPOSITORY_LEADER[0] == 'r';
  }

  // --- What a read record looks like -------------------------------------------------------------

  predicate RefsFit(r: CredentialRefs) {
    && Within(r.matrix, 1, MAX_CREDENTIAL_REF) && OptionalWithin(r.model, MAX_CREDENTIAL_REF)
    && OptionalWithin(r.scm, MAX_CREDENTIAL_REF) && OptionalWithin(r.repomesh, MAX_CREDENTIAL_REF)
  }

  ghost predicate RoomsFit(rooms: seq<string>) {
    && 1 <= |rooms| <= MAX_ROOMS && Distinct(rooms)
    && forall room | room in rooms :: MatrixId(room, '!') && |room| <= MAX_MATRIX_ID
  }

  predicate UserFits(user: string) {
    Within(user, 1, MAX_MATRIX_ID) && MatrixId(user, '@')
  }

  predicate UrlFits(url: string, isHttpUrl: string -> bool) {
    Within(url, 1, MAX_URL) && isHttpUrl(url)
  }

  ghost predicate EnrollmentFits(e: Enrollment, isHttpUrl: string -> bool) {
    && Canonical(e.organizationId) && Canonical(e.workerAgentId)
    && Within(e.workerName, 1, MAX_NAME) && Within(e.teamName, 1, MAX_NAME)
    && UserFits(e.matrixUserId) && RoomsFit(e.allowedRoomIds)
    && UrlFits(e.homeserverUrl, isHttpUrl) && UrlFits(e.endpoint, isHttpUrl)
    && OneOf(e.codingProfile, CODING_PROFILES) && RefsFit(e.credentialRefs)
    && OptionalWithin(e.displayName, MAX_NAME) && RoleFits(e.role, e.version)
  }

  ghost predicate BindingFits(b: Binding) {
    && Canonical(b.organizationId) && Canonical(b.workerAgentId)
    && Within(b.teamName, 1, MAX_NAME) && Within(b.workerName, 1, MAX_NAME)
    && UserFits(b.matrixUserId) && RoomsFit(b.allowedRoomIds) && RoleFits(b.role, b.version)
  }

  /** A Matrix identifier is its sigil, a local part without a colon, a colon, and a server
      on one line; a final line feed passes. */
  lemma MatrixIdIs(s: string, sigil: char)
    requires sigil != ':'
    ensures MatrixId(s, sigil) <==> exists local, server, end :: MadeOf(s, sigil, local, server, end)
  {
    if MatrixId(s, sigil) {
      MatrixIdParts(s, sigil);
    }
    hide MatrixId, MadeOf;
    if local, server, end :| MadeOf(s, sigil, local, server, end) {
      PartsAreMatrixId(s, sigil, local, server, end);
    }
  }

  predicate MadeOf(s: string, sigil: char, local: string, server: string, end: string) {
    && s == [sigil] + local + [':'] + (server + end)
    && local != [] && ':' !in local && server != [] && '\n' !in server && (end == [] || end == ['\n'])
  }

  lemma MatrixIdParts(s: string, sigil: char)
    requires sigil != ':' && MatrixId(s, sigil)
    ensures exists local, server, end :: MadeOf(s, sigil, local, server, end)
  {
    hide OneLine, FirstColon;
    var k := FirstColon(s);
    ColonSplits(s, sigil, k);
    var server, end := LineParts(s[k + 1..]);
    hide MatrixId;
    assert MadeOf(s, sigil, s[1..k], server, end);
  }

  lemma LineParts(tail: string) returns (server: string, end: string)
    requires OneLine(tail)
    ensures tail == server + end && server != [] && '\n' !in server && (end == [] || end == ['\n'])
  {
    if tail[|tail| - 1] == '\n' {
      server, end := tail[..|tail| - 1], ['\n'];
    } else {
      server, end := tail, [];
    }
  }

  lemma LineOf(server: string, end: string)
    requires server != [] && '\n' !in server && (end == [] || end == ['\n'])
    ensures OneLine(server + end)
  {
    var tail := server + end;
    if end == [] {
      assert tail == server && tail[|tail| - 1] in server;
    } else {
      assert tail[..|tail| - 1] == server;
    }
  }

  lemma ColonSplits(s: string, sigil: char, k: nat)
    requires s != [] && s[0] == sigil && k == FirstColon(s) && 2 <= k < |s|
    ensures s == [sigil] + s[1..k] + [':'] + s[k + 1..] && s[1..k] != [] && ':' !in s[1..k]
  {
    FirstColonFirst(s);
    hide FirstColon;
    assert s[1..k] == s[..k][1..];
  }

  lemma PartsAreMatrixId(s: string, sigil: char, local: string, server: string, end: string)
    requires sigil != ':' && MadeOf(s, sigil, local, server, end)
    ensures MatrixId(s, sigil)
  {
    ColonAfter([sigil] + local, server + end);
    LineOf(server, end);
    hide OneLine, FirstColon;
    assert s[|local| + 2..] == server + end;
  }

  lemma {:induction false} FirstColonFirst(s: string)
    ensures FirstColon(s) <= |s| && ':' !in s[..FirstColon(s)]
    ensures FirstColon(s) < |s| ==> s[FirstColon(s)] == ':'
  {
    if s != [] && s[0] != ':' {
      FirstColonFirst(s[1..]);
      assert s[..FirstColon(s)] == [s[0]] + s[1..][..FirstColon(s[1..])];
    }
  }

  lemma {:induction false} ColonAfter(a: string, b: string)
    requires ':' !in a
    ensures FirstColon(a + [':'] + b) == |a|
  {
    if a != [] {
      assert (a + [':'] + b)[1..] == a[1..] + [':'] + b;
      ColonAfter(a[1..], b);
    }
  }

  lemma RefsRead(j: Json, r: CredentialRefs)
    requires ReadRefs(j) == Success(r)
    ensures RefsFit(r)
  {
    var f := j.fields;
    OptionalFits(f, MatrixRef, MAX_CREDENTIAL_REF);
    OptionalFits(f, ModelRef, MAX_CREDENTIAL_REF);
    OptionalFits(f, ScmRef, MAX_CREDENTIAL_REF);
    OptionalFits(f, RepomeshRef, MAX_CREDENTIAL_REF);
  }

  lemma RefsWritten(r: CredentialRefs)
    requires RefsFit(r)
    ensures ReadRefs(WriteRefs(r)) == Success(r)
  {
    hide OptionalText;
    var g := WriteRefs(r).fields;
    OptionalWritten(g, MatrixRef, MAX_CREDENTIAL_REF, Some(r.matrix));
    OptionalWritten(g, ModelRef, MAX_CREDENTIAL_REF, r.model);
    OptionalWritten(g, ScmRef, MAX_CREDENTIAL_REF, r.scm);
    OptionalWritten(g, RepomeshRef, MAX_CREDENTIAL_REF, r.repomesh);
  }

  lemma RoomIdsRead(f: map<Field, Json>, key: Field)
    requires key in f && RoomIds(f, key).Success?
    ensures RoomsFit(RoomIds(f, key).value)
  {
    var rooms, items := RoomIds(f, key).value, f[key].items;
    assert forall i | 0 <= i < |rooms| :: items[i] == Str(rooms[i]);
    forall i, j | 0 <= i < j < |rooms| ensures rooms[i] != rooms[j] {
      assert items[i] != items[j];
    }
  }

  lemma RoomIdsWritten(g: map<Field, Json>, key: Field, rooms: seq<string>)
    requires key in g && g[key] == WriteStrings(rooms) && RoomsFit(rooms)
    ensures RoomIds(g, key) == Success(rooms)
  {
    hide MatrixId;
    var written := g[key].items;
    forall i | 0 <= i < |rooms|
      ensures written[i] == Str(rooms[i]) && MatrixId(rooms[i], '!') && |rooms[i]| <= MAX_MATRIX_ID
    {
      assert rooms[i] in rooms;
    }
    forall i, j | 0 <= i < j < |written| ensures written[i] != written[j] {
      assert rooms[i] != rooms[j];
    }
    assert RoomIds(g, key).value == rooms;
  }

  lemma RoleWritten(g: map<Field, Json>, v: Version, role: string)
    requires RoleFields(v) <= g.Keys && RoleFits(role, v) && (v.V2? ==> RoleField in g && g[RoleField] == Str(role))
    ensures ReadRole(g, v) == Success(role)
  {
    assert |WORKER| == 6 && |REPOSITORY_LEADER| == 17;
  }

  lemma EnrollmentRead(j: Json, v: Version, e: Enrollment, isHttpUrl: string -> bool)
    requires ReadEnrollmentAs(j, v, isHttpUrl) == Success(e)
    ensures EnrollmentFits(e, isHttpUrl) && e.version == v
  {
    hide Uuid, Enum, OptionalText, RoomIds, ReadRefs, MatrixId, ReadRole, EnrollmentSchema, RoleFits,
         Canonical, OneOf, RefsFit, RoomsFit, OptionalWithin;
    var f := j.fields;
    UuidFits(f, OrganizationId);
    UuidFits(f, WorkerAgentId);
    EnumFits(f, CodingProfile, CODING_PROFILES);
    RoomIdsRead(f, AllowedRoomIds);
    RefsRead(f[CredentialRefsField], e.credentialRefs);
    OptionalFits(f, DisplayName, MAX_NAME);
  }

  lemma EnrollmentFieldsWritten(g: map<Field, Json>, e: Enrollment, isHttpUrl: string -> bool)
    requires EnrollmentFits(e, isHttpUrl) && ENROLLMENT_FIELDS + RoleFields(e.version) <= g.Keys
    requires g == WriteEnrollment(e).fields
    ensures EnrollmentFrom(g, e.version, isHttpUrl) == Success(e)
  {
    hide Uuid, Enum, OptionalText, RoomIds, ReadRefs, WriteRefs, WriteStrings, MatrixId, ReadRole, EnrollmentSchema,
         RoleFits, Canonical, OneOf, RefsFit, RoomsFit, OptionalWithin;
    RoleWritten(g, e.version, e.role);
    EnumWritten(g, CodingProfile, CODING_PROFILES, e.codingProfile);
    UuidWritten(g, OrganizationId, e.organizationId);
    UuidWritten(g, WorkerAgentId, e.workerAgentId);
    RoomIdsWritten(g, AllowedRoomIds, e.allowedRoomIds);
    RefsWritten(e.credentialRefs);
    OptionalWritten(g, DisplayName, MAX_NAME, e.displayName);
  }

  /** Every enrollment that fits is read back from its own output, field for field. */
  lemma EnrollmentWritten(e: Enrollment, isHttpUrl: string -> bool)
    requires EnrollmentFits(e, isHttpUrl)
    ensures ReadEnrollmentAs(WriteEnrollment(e), e.version, isHttpUrl) == Success(e)
  {
    EnrollmentShape(e);
    hide EnrollmentFrom, WriteEnrollment, EnrollmentFits;
    EnrollmentFieldsWritten(WriteEnrollment(e).fields, e, isHttpUrl);
  }

  /** The reader of a version produces exactly the records of that version that fit. */
  lemma EnrollmentsAreThoseThatFit(e: Enrollment, v: Version, isHttpUrl: string -> bool)
    ensures (exists j :: ReadEnrollmentAs(j, v, isHttpUrl) == Success(e))
       <==> e.version == v && EnrollmentFits(e, isHttpUrl)
  {
    hide ReadEnrollmentAs, WriteEnrollment, EnrollmentFits;
    if e.version == v && EnrollmentFits(e, isHttpUrl) {
      EnrollmentWritten(e, isHttpUrl);
    }
    if j :| ReadEnrollmentAs(j, v, isHttpUrl) == Success(e) {
      EnrollmentRead(j, v, e, isHttpUrl);
    }
  }

  lemma EnrollmentShape(e: Enrollment)
    ensures Object(WriteEnrollment(e), ENROLLMENT_FIELDS + RoleFields(e.version), {DisplayName})
         == Success(WriteEnrollment(e).fields)
  {
    hide EnrollmentSchema, WriteRefs, WriteStrings;
  }

  lemma EnrollmentVersionKept(j: Json, v: Version, e: Enrollment, isHttpUrl: string -> bool)
    requires ReadEnrollmentAs(j, v, isHttpUrl) == Success(e)
    ensures e.version == v && RoleFits(e.role, v) && j.fields[SchemaVersion] == Str(EnrollmentSchema(v))
  {
    hide Uuid, Enum, OptionalText, RoomIds, ReadRefs, MatrixId, ReadRole, EnrollmentSchema, RoleFits;
  }

  /** Each version's reader takes its own output back, with the same record. */
  lemma EnrollmentAsRoundTrip(j: Json, v: Version, e: Enrollment, isHttpUrl: string -> bool)
    requires ReadEnrollmentAs(j, v, isHttpUrl) == Success(e)
    ensures ReadEnrollmentAs(WriteEnrollment(e), v, isHttpUrl) == Success(e)
  {
    hide ReadEnrollmentAs, WriteEnrollment, EnrollmentFits;
    EnrollmentRead(j, v, e, isHttpUrl);
    EnrollmentWritten(e, isHttpUrl);
  }

  /** So does the reader that chooses the version. */
  lemma EnrollmentRoundTrip(j: Json, e: Enrollment, isHttpUrl: string -> bool)
    requires ReadEnrollment(j, isHttpUrl) == Success(e)
    ensures ReadEnrollment(WriteEnrollment(e), isHttpUrl) == Success(e)
  {
    hide ReadEnrollmentAs;
    var v := if j.fields[SchemaVersion] == Str(ENROLLMENT_V2) then V2 else V1;
    EnrollmentAsRoundTrip(j, v, e, isHttpUrl);
    EnrollmentVersionKept(j, v, e, isHttpUrl);
    SchemasDiffer();
  }

  /** No document is accepted as both versions; in particular neither reader takes the
      other's output. */
  lemma EnrollmentVersionsExclude(j: Json, isHttpUrl: string -> bool)
    ensures ReadEnrollmentAs(j, V1, isHttpUrl).Failure? || ReadEnrollmentAs(j, V2, isHttpUrl).Failure?
  {
    hide ReadEnrollmentAs;
    SchemasDiffer();
    if ReadEnrollmentAs(j, V1, isHttpUrl).Success? && ReadEnrollmentAs(j, V2, isHttpUrl).Success? {
      EnrollmentVersionKept(j, V1, ReadEnrollmentAs(j, V1, isHttpUrl).value, isHttpUrl);
      EnrollmentVersionKept(j, V2, ReadEnrollmentAs(j, V2, isHttpUrl).value, isHttpUrl);
    }
  }

  lemma OtherReaderRefuses(j: Json, v: Version, e: Enrollment, isHttpUrl: string -> bool)
    requires ReadEnrollmentAs(j, v, isHttpUrl) == Success(e)
    ensures ReadEnrollmentAs(WriteEnrollment(e), if v.V1? then V2 else V1, isHttpUrl).Failure?
  {
    EnrollmentAsRoundTrip(j, v, e, isHttpUrl);
    EnrollmentVersionsExclude(WriteEnrollment(e), isHttpUrl);
  }

  /** A repository leader was read from a version-two document and goes back to one. */
  lemma LeadersAreVersionTwo(j: Json, e: Enrollment, isHttpUrl: string -> bool)
    requires ReadEnrollment(j, isHttpUrl) == Success(e) && e.role == REPOSITORY_LEADER
    ensures e.version == V2 && ReadEnrollmentAs(WriteEnrollment(e), V2, isHttpUrl) == Success(e)
    ensures ReadEnrollmentAs(WriteEnrollment(e), V1, isHttpUrl).Failure?
  {
    hide ReadEnrollmentAs;
    SchemasDiffer();
    var v := if j.fields[SchemaVersion] == Str(ENROLLMENT_V2) then V2 else V1;
    EnrollmentVersionKept(j, v, e, isHttpUrl);
    EnrollmentAsRoundTrip(j, v, e, isHttpUrl);
    OtherReaderRefuses(j, v, e, isHttpUrl);
  }

  lemma BindingRead(j: Json, v: Version, b: Binding)
    requires ReadBindingAs(j, v) == Success(b)
    ensures BindingFits(b) && b.version == v
  {
    hide Uuid, RoomIds, MatrixId, ReadRole, BindingSchema, RoleFits, Canonical, RoomsFit;
    UuidFits(j.fields, OrganizationId);
    UuidFits(j.fields, WorkerAgentId);
    RoomIdsRead(j.fields, AllowedRoomIds);
  }

  lemma BindingFieldsWritten(g: map<Field, Json>, b: Binding)
    requires BindingFits(b) && BINDING_FIELDS + RoleFields(b.version) <= g.Keys && g == WriteBinding(b).fields
    ensures BindingFrom(g, b.version) == Success(b)
  {
    hide Uuid, RoomIds, WriteStrings, MatrixId, ReadRole, BindingSchema, RoleFits, Canonical, RoomsFit;
    RoleWritten(g, b.version, b.role);
    UuidWritten(g, OrganizationId, b.organizationId);
    UuidWritten(g, WorkerAgentId, b.workerAgentId);
    RoomIdsWritten(g, AllowedRoomIds, b.allowedRoomIds);
  }

  lemma BindingWritten(b: Binding)
    requires BindingFits(b)
    ensures ReadBindingAs(WriteBinding(b), b.version) == Success(b)
  {
    BindingShape(b);
    hide BindingFrom, WriteBinding, BindingFits;
    BindingFieldsWritten(WriteBinding(b).fields, b);
  }

  lemma BindingsAreThoseThatFit(b: Binding, v: Version)
    ensures (exists j :: ReadBindingAs(j, v) == Success(b)) <==> b.version == v && BindingFits(b)
  {
    hide ReadBindingAs, WriteBinding, BindingFits;
    if b.version == v && BindingFits(b) {
      BindingWritten(b);
    }
    if j :| ReadBindingAs(j, v) == Success(b) {
      BindingRead(j, v, b);
    }
  }

  lemma BindingShape(b: Binding)
    ensures Object(WriteBinding(b), BINDING_FIELDS + RoleFields(b.version), {}) == Success(WriteBinding(b).fields)
  {
    hide BindingSchema, WriteStrings;
  }

  lemma BindingVersionKept(j: Json, v: Version, b: Binding)
    requires ReadBindingAs(j, v) == Success(b)
    ensures b.version == v && RoleFits(b.role, v) && j.fields[SchemaVersion] == Str(BindingSchema(v))
  {
    hide Uuid, Enum, RoomIds, MatrixId, ReadRole, BindingSchema, RoleFits;
  }

  lemma BindingRoundTrip(j: Json, v: Version, b: Binding)
    requires ReadBindingAs(j, v) == Success(b)
    ensures ReadBindingAs(WriteBinding(b), v) == Success(b)
    ensures ReadBindingAs(WriteBinding(b), if v.V1? then V2 else V1).Failure?
    ensures v.V1? ==> b.role == WORKER
  {
    hide ReadBindingAs, WriteBinding, BindingFits;
    BindingVersionKept(j, v, b);
    SchemasDiffer();
    BindingRead(j, v, b);
    BindingWritten(b);
    var other := if v.V1? then V2 else V1;
    if ReadBindingAs(WriteBinding(b), other).Success? {
      BindingVersionKept(WriteBinding(b), other, ReadBindingAs(WriteBinding(b), other).value);
      BindingVersionKept(WriteBinding(b), v, b);
    }
  }
}
