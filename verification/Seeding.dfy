/** Registering a roster of members in the agent directory (e1_config.py, seed_members.py). */
module Seeding {
  import opened Common

  datatype Role = OrganizationLeader | RepositoryLeader | Worker
  datatype Status = Active | Inactive

  datatype Principal = Principal(
    id: string,
    organization: string,
    role: Role,
    leader: Option<string>,
    singletonKey: Option<string>,
    repository: Option<string>,
    paths: seq<string>,
    resource: string,
    status: Status)

  datatype Member = Member(
    key: string,
    isLeader: bool,
    agentId: string,
    repositoryId: string,
    resource: string,
    paths: seq<string>,
    leaderKey: Option<string>)

  datatype Config = Config(organization: string, organizationLeader: string, members: seq<Member>)

  // --- What the loader accepts ----------------------------------------------------------

  ghost predicate UniqueMembers(ms: seq<Member>) {
    forall i, j | 0 <= i < j < |ms| ::
      ms[i].key != ms[j].key && ms[i].agentId != ms[j].agentId && ms[i].resource != ms[j].resource
  }

  ghost predicate LedBy(m: Member, ms: seq<Member>) {
    exists l :: l in ms && l.isLeader && m.leaderKey == Some(l.key) && l.repositoryId == m.repositoryId
  }

  ghost predicate Hierarchical(ms: seq<Member>) {
    forall m | m in ms && !m.isLeader :: LedBy(m, ms)
  }

  datatype RosterError = Duplicate(field: string) | NoLeader(key: string) | OtherRepository(key: string)

  predicate Clash(values: seq<string>) {
    exists i, j :: 0 <= i < j < |values| && values[i] == values[j]
  }

  function Keys(ms: seq<Member>): seq<string> {
    seq(|ms|, i requires 0 <= i < |ms| => ms[i].key)
  }

  function AgentIds(ms: seq<Member>): seq<string> {
    seq(|ms|, i requires 0 <= i < |ms| => ms[i].agentId)
  }

  function Resources(ms: seq<Member>): seq<string> {
    seq(|ms|, i requires 0 <= i < |ms| => ms[i].resource)
  }

  predicate Share(m: Member, n: Member, field: string) {
    || (field == "key" && m.key == n.key)
    || (field == "agentId" && m.agentId == n.agentId)
    || (field == "resourceName" && m.resource == n.resource)
  }

  /** The error names a field that two members share. */
  ghost predicate Repeats(ms: seq<Member>, error: RosterError) {
    exists i, j :: 0 <= i < j < |ms| && error.Duplicate? && Share(ms[i], ms[j], error.field)
  }

  method AssertUnique(ms: seq<Member>) returns (error: Option<RosterError>)
    ensures error.None? <==> UniqueMembers(ms)
    ensures error.Some? ==> Repeats(ms, error.value)
  {
    if Clash(Keys(ms)) {
      return Some(Duplicate("key"));
    }
    if Clash(AgentIds(ms)) {
      return Some(Duplicate("agentId"));
    }
    if Clash(Resources(ms)) {
      return Some(Duplicate("resourceName"));
    }
    error := None;
    forall i, j | 0 <= i < j < |ms|
      ensures ms[i].key != ms[j].key && ms[i].agentId != ms[j].agentId && ms[i].resource != ms[j].resource
    {
      assert Keys(ms)[i] != Keys(ms)[j] && AgentIds(ms)[i] != AgentIds(ms)[j];
      assert Resources(ms)[i] != Resources(ms)[j];
    }
  }

  /** The last leader with a key, as a dictionary built in order keeps it. */
  function LeaderNamed(ms: seq<Member>, key: string): Option<Member> {
    if ms == [] then None else
      var last := ms[|ms| - 1];
      if last.isLeader && last.key == key then Some(last) else LeaderNamed(ms[..|ms| - 1], key)
  }

  lemma {:induction false} LeaderNamedIff(ms: seq<Member>, key: string)
    requires UniqueMembers(ms)
    ensures forall l :: LeaderNamed(ms, key) == Some(l) <==> l in ms && l.isLeader && l.key == key
  {
    if ms != [] {
      var front, last := ms[..|ms| - 1], ms[|ms| - 1];
      LeaderNamedIff(front, key);
      OthersNamedOtherwise(ms);
      hide UniqueMembers;
      forall l ensures LeaderNamed(ms, key) == Some(l) <==> l in ms && l.isLeader && l.key == key {
        assert l in ms <==> l in front || l == last by {
          assert ms == front + [last];
        }
      }
    }
  }

  lemma OthersNamedOtherwise(ms: seq<Member>)
    requires UniqueMembers(ms) && ms != []
    ensures UniqueMembers(ms[..|ms| - 1])
    ensures forall l | l in ms[..|ms| - 1] :: l.key != ms[|ms| - 1].key
  {
    var front := ms[..|ms| - 1];
    forall l | l in front ensures l.key != ms[|ms| - 1].key {
      var i :| 0 <= i < |front| && front[i] == l;
      assert ms[i].key != ms[|ms| - 1].key;
    }
  }

  /** The error names a worker whose line names no leader of the roster, or one of another
      repository. */
  ghost predicate Stray(ms: seq<Member>, error: RosterError) {
    match error
    case Duplicate(field) => false
    case NoLeader(key) =>
      exists m :: m in ms && !m.isLeader && m.key == key
                  && forall l | l in ms && l.isLeader :: m.leaderKey != Some(l.key)
    case OtherRepository(key) =>
      exists m, l :: m in ms && !m.isLeader && m.key == key
                     && l in ms && l.isLeader && m.leaderKey == Some(l.key) && l.repositoryId != m.repositoryId
  }

  method AssertHierarchy(ms: seq<Member>) returns (error: Option<RosterError>)
    requires UniqueMembers(ms)
    ensures error.None? <==> Hierarchical(ms)
    ensures error.Some? ==> Stray(ms, error.value)
  {
    for i := 0 to |ms|
      invariant forall m | m in ms[..i] && !m.isLeader :: LedBy(m, ms)
    {
      var m := ms[i];
      assert m in ms;
      if m.isLeader {
        continue;
      }
      var wanted := if m.leaderKey.Some? then m.leaderKey.value else "";
      var leader := LeaderNamed(ms, wanted);
      LeaderNamedIff(ms, wanted);
      if m.leaderKey.None? || leader.None? {
        return Some(NoLeader(m.key));
      }
      if leader.value.repositoryId != m.repositoryId {
        return Some(OtherRepository(m.key));
      }
    }
    error := None;
  }

  /** load_config has accepted this roster. */
  ghost predicate Loaded(c: Config) {
    UniqueMembers(c.members) && Hierarchical(c.members)
  }

  /** The first member with a key. */
  function ByKey(ms: seq<Member>, key: string): Option<Member> {
    if ms == [] then None else if ms[0].key == key then Some(ms[0]) else ByKey(ms[1..], key)
  }

  lemma {:induction false} ByKeyFinds(ms: seq<Member>, l: Member)
    requires UniqueMembers(ms) && l in ms
    ensures ByKey(ms, l.key) == Some(l)
  {
    if ms[0] != l {
      assert l in ms[1..];
      var i :| 0 <= i < |ms| && ms[i] == l;
      assert ms[0].key != ms[i].key;
      ByKeyFinds(ms[1..], l);
    }
  }

  /** Leaders first, each group in roster order: the stable sort on "is not a leader". */
  function Only(ms: seq<Member>, leaders: bool): seq<Member> {
    if ms == [] then [] else
      var last := ms[|ms| - 1];
      Only(ms[..|ms| - 1], leaders) + if last.isLeader == leaders then [last] else []
  }

  function Ordered(ms: seq<Member>): seq<Member> {
    Only(ms, true) + Only(ms, false)
  }

  lemma {:induction false} OnlyHas(ms: seq<Member>, leaders: bool, m: Member)
    ensures m in Only(ms, leaders) <==> m in ms && m.isLeader == leaders
  {
    if ms != [] {
      OnlyHas(ms[..|ms| - 1], leaders, m);
      assert ms == ms[..|ms| - 1] + [ms[|ms| - 1]];
    }
  }

  // --- The principals and the directory -------------------------------------------------

  /** The agent a member reports to: the organization's leader, or its own in the roster. */
  function ParentOf(c: Config, m: Member): Option<string> {
    if m.isLeader then Some(c.organizationLeader)
    else
      var l := ByKey(c.members, if m.leaderKey.Some? then m.leaderKey.value else "");
      if l.Some? then Some(l.value.agentId) else None
  }

  function BuildPrincipal(m: Member, c: Config, parent: string): Principal {
    Principal(
      m.agentId, c.organization,
      if m.isLeader then RepositoryLeader else Worker,
      Some(parent),
      if m.isLeader then Some("repository:" + m.repositoryId + ":leader") else None,
      Some(m.repositoryId), m.paths, m.resource, Active)
  }

  /** The roster's description of a member, in a loaded roster. */
  ghost function Wanted(c: Config, m: Member): Principal {
    BuildPrincipal(m, c, if ParentOf(c, m).Some? then ParentOf(c, m).value else "")
  }

  // --- What an entry says ------------------------------------------------------------------

  /** The entry is this member's: an active agent of the organization, with the member's own
      repository, paths and resource, and leading that repository exactly when the roster
      says so. */
  predicate Registered(p: Principal, m: Member, c: Config) {
    && p.id == m.agentId && p.organization == c.organization && p.status.Active?
    && p.repository == Some(m.repositoryId) && p.paths == m.paths && p.resource == m.resource
    && (p.role.RepositoryLeader? <==> m.isLeader) && (p.role.Worker? <==> !m.isLeader)
  }

  /** A leader answers to the organization's leader and holds its repository's one seat; a
      worker answers to the leader of its repository that its roster line names. */
  ghost predicate Placed(p: Principal, m: Member, c: Config) {
    if m.isLeader then
      p.leader == Some(c.organizationLeader) && p.singletonKey == Some("repository:" + m.repositoryId + ":leader")
    else
      && p.singletonKey.None?
      && exists l :: l in c.members && l.isLeader && m.leaderKey == Some(l.key)
                     && l.repositoryId == m.repositoryId && p.leader == Some(l.agentId)
  }

  /** These two say all there is to say about a member's entry. */
  lemma WantedIff(c: Config, m: Member, p: Principal)
    requires Loaded(c) && m in c.members
    ensures p == Wanted(c, m) <==> Registered(p, m, c) && Placed(p, m, c)
  {
    if !m.isLeader {
      var l :| l in c.members && l.isLeader && m.leaderKey == Some(l.key) && l.repositoryId == m.repositoryId;
      ByKeyFinds(c.members, l);
      forall l' | l' in c.members && m.leaderKey == Some(l'.key) ensures l' == l {
        ByKeyFinds(c.members, l');
      }
    }
  }

  /** The chain of command on file: a worker's entry refers to an active leader of the same
      repository, and that one to the organization's leader. */
  ghost predicate Commanded(d: Directory, m: Member, c: Config) {
    && m.agentId in d && d[m.agentId].leader.Some? && d[m.agentId].leader.value in d
    && var boss := d[d[m.agentId].leader.value];
       if m.isLeader then d[m.agentId].leader == Some(c.organizationLeader) && LeadsOrganization(boss, c)
       else && boss.role.RepositoryLeader? && boss.status.Active? && boss.organization == c.organization
            && boss.repository == d[m.agentId].repository
            && boss.leader == Some(c.organizationLeader)
            && c.organizationLeader in d && LeadsOrganization(d[c.organizationLeader], c)
  }

  predicate LeadsOrganization(p: Principal, c: Config) {
    p.role.OrganizationLeader? && p.status.Active? && p.organization == c.organization
  }

  type Directory = map<string, Principal>

  /** Every reference to a leader leads to someone on file. */
  ghost predicate Closed(d: Directory) {
    forall id | id in d :: d[id].id == id && (d[id].leader.Some? ==> d[id].leader.value in d)
  }

  predicate LeaderReady(d: Directory, c: Config) {
    && c.organizationLeader in d
    && d[c.organizationLeader].role.OrganizationLeader?
    && d[c.organizationLeader].status.Active?
    && d[c.organizationLeader].organization == c.organization
  }

  datatype SeedError =
    | LeaderNotReady
    | Drift(key: string, existing: Principal)
    | DirectoryRefused(key: string)

  /** A refusal names a member: one whose entry was on file already, or one that was not. */
  ghost predicate Blames(error: SeedError, ms: seq<Member>, start: Directory) {
    match error
    case LeaderNotReady => false
    case Drift(key, existing) =>
      exists m :: m in ms && m.key == key && m.agentId in start && start[m.agentId] == existing
    case DirectoryRefused(key) => exists m :: m in ms && m.key == key && m.agentId !in start
  }

  /** One insertion into a directory. */
  ghost predicate Inserts(before: Directory, after: Directory) {
    exists id :: id !in before && id in after && after == before[id := after[id]]
  }

  predicate SameScope(a: Principal, b: Principal) {
    a.singletonKey.Some? && a.singletonKey == b.singletonKey
  }

  predicate SameResource(a: Principal, b: Principal) {
    a.role.OrganizationLeader? == b.role.OrganizationLeader? && a.resource == b.resource
  }

  /** The directory's unique constraints: one agent per scope key and per bound resource. */
  predicate Collides(d: Directory, p: Principal) {
    exists id :: id in d && (SameScope(d[id], p) || SameResource(d[id], p))
  }

  ghost predicate UniqueScopes(d: Directory) {
    forall id, id' | id in d && id' in d && id != id' :: !SameScope(d[id], d[id'])
  }

  class AgentDirectory {
    var entries: Directory

    constructor (d: Directory)
      ensures entries == d
    {
      entries := d;
    }

    /** refusing stands for whatever else makes the database turn an insert down. */
    method Add(p: Principal, refusing: set<string>) returns (added: bool)
      modifies this
      ensures added <==> p.id !in refusing && !Collides(old(entries), p)
      ensures entries == if added then old(entries)[p.id := p] else old(entries)
      ensures UniqueScopes(old(entries)) && p.id !in old(entries) ==> UniqueScopes(entries)
    {
      added := p.id !in refusing && !Collides(entries, p);
      if added {
        entries := entries[p.id := p];
      }
    }
  }

  /** A directory that holds every member as described holds the roster and its chain of
      command, whatever the description says. */
  lemma RosterOnFile(c: Config, d: Directory, m: Member)
    requires Loaded(c) && LeaderReady(d, c) && m in c.members
    requires forall n | n in c.members :: n.agentId in d && d[n.agentId] == Wanted(c, n)
    ensures Registered(d[m.agentId], m, c) && Placed(d[m.agentId], m, c) && Commanded(d, m, c)
  {
    WantedIff(c, m, d[m.agentId]);
    if !m.isLeader {
      var l :| l in c.members && l.isLeader && m.leaderKey == Some(l.key)
               && l.repositoryId == m.repositoryId && d[m.agentId].leader == Some(l.agentId);
      WantedIff(c, l, d[l.agentId]);
    }
  }

  /** The same of every member, when the organization's leader was ready from the start. */
  lemma RostersOnFile(c: Config, start: Directory, d: Directory)
    requires Loaded(c) && LeaderReady(start, c)
    requires forall id | id in start :: id in d && d[id] == start[id]
    requires forall n | n in c.members :: n.agentId in d && d[n.agentId] == Wanted(c, n)
    ensures forall m | m in c.members ::
              Registered(d[m.agentId], m, c) && Placed(d[m.agentId], m, c) && Commanded(d, m, c)
  {
    assert LeaderReady(d, c);
    hide Wanted, Registered, Placed, Commanded;
    forall m | m in c.members
      ensures Registered(d[m.agentId], m, c) && Placed(d[m.agentId], m, c) && Commanded(d, m, c)
    {
      RosterOnFile(c, d, m);
    }
  }

  /** What seeding decides about one member, from the directory it meets. */
  ghost predicate Acceptable(c: Config, m: Member, d: Directory, dryRun: bool, refusing: set<string>) {
    if m.agentId in d then d[m.agentId] == Wanted(c, m)
    else dryRun || (m.agentId !in refusing && !Collides(d, Wanted(c, m)))
  }

  /** Two leaders of one repository, which no check of the roster excludes. */
  predicate Rivals(m: Member, n: Member) {
    m != n && m.isLeader && n.isLeader && m.repositoryId == n.repositoryId
  }

  /** Of two rivals at most one has yet to be inserted. */
  ghost predicate RivalsApart(ms: seq<Member>, start: Directory) {
    forall m, n | m in ms && n in ms && Rivals(m, n) :: m.agentId in start || n.agentId in start
  }

  /** Directories reached one insertion at a time, each closed under leader references. */
  ghost predicate Trail(steps: seq<Directory>, start: Directory, now: Directory) {
    && |steps| >= 1 && steps[0] == start && steps[|steps| - 1] == now
    && (forall i | 0 <= i < |steps| :: Closed(steps[i]))
    && (forall i | 0 <= i < |steps| - 1 :: Inserts(steps[i], steps[i + 1]))
  }

  lemma TrailGrows(steps: seq<Directory>, start: Directory, before: Directory, now: Directory)
    requires Trail(steps, start, before) && Inserts(before, now) && Closed(now)
    ensures Trail(steps + [now], start, now)
  {
  }

  /** steps is the directory at the start and after each insertion. */
  method Seed(c: Config, directory: AgentDirectory, dryRun: bool, refusing: set<string>)
    returns (r: Result<nat, SeedError>, ghost steps: seq<Directory>)
    requires Loaded(c) && Closed(directory.entries)
    modifies directory
    ensures Trail(steps, old(directory.entries), directory.entries)
    ensures forall id | id in old(directory.entries) ::
              id in directory.entries && directory.entries[id] == old(directory.entries)[id]
    ensures r.Success? <==>
      && LeaderReady(old(directory.entries), c)
      && (forall m | m in c.members :: Acceptable(c, m, old(directory.entries), dryRun, refusing))
      && (dryRun || RivalsApart(c.members, old(directory.entries)))
    ensures r == Failure(LeaderNotReady) <==> !LeaderReady(old(directory.entries), c)
    ensures r.Failure? && r.error != LeaderNotReady ==> Blames(r.error, c.members, old(directory.entries))
    ensures UniqueScopes(old(directory.entries)) ==> UniqueScopes(directory.entries)
    ensures r.Success? && !dryRun ==> forall m | m in c.members ::
              m.agentId in directory.entries && directory.entries[m.agentId] == Wanted(c, m)
    ensures r.Success? && !dryRun ==> forall m | m in c.members ::
              && m.agentId in directory.entries && Registered(directory.entries[m.agentId], m, c)
              && Placed(directory.entries[m.agentId], m, c) && Commanded(directory.entries, m, c)
    ensures r.Success? ==> r.value == |steps| - 1
    ensures dryRun ==> directory.entries == old(directory.entries)
    ensures forall id | id in directory.entries && id !in old(directory.entries) ::
              exists m :: m in c.members && m.agentId == id
  {
    hide Wanted, UniqueMembers, Hierarchical, Ordered, ParentOf, Closed, Inserts, Acceptable, RivalsApart, UniqueScopes;
    hide Registered, Placed, Commanded;
    steps := [directory.entries];
    if !LeaderReady(directory.entries, c) {
      return Failure(LeaderNotReady), steps;
    }
    var ordered := Ordered(c.members);
    OrderedFacts(c.members);
    var added := 0;
    ghost var start := directory.entries;
    StartsEmpty(c, start, dryRun, refusing);
    assert ordered[..0] == [];
    for i := 0 to |ordered|
      invariant |steps| == added + 1 && Trail(steps, start, directory.entries)
      invariant Progress(c, start, directory.entries, ordered[..i], dryRun, refusing)
      invariant UniqueScopes(start) ==> UniqueScopes(directory.entries)
    {
      ghost var before := directory.entries;
      assert steps[|steps| - 1] == before;
      var one := SeedNext(c, ordered, i, directory, start, dryRun, refusing);
      if one.Failure? {
        return Failure(one.error), steps;
      }
      if one.value {
        added := added + 1;
        TrailGrows(steps, start, before, directory.entries);
        steps := steps + [directory.entries];
      }
    }
    assert ordered[..|ordered|] == ordered;
    EndsWell(c, ordered, start, directory.entries, dryRun, refusing);
    if !dryRun {
      RostersOnFile(c, start, directory.entries);
    }
    r := Success(added);
  }

  /** One member of the roster, in the order of seeding: the run goes on with it done, or
      stops because it breaks the condition for success. */
  method SeedNext(c: Config, ordered: seq<Member>, i: nat, directory: AgentDirectory, ghost start: Directory,
                  dryRun: bool, refusing: set<string>)
    returns (r: Result<bool, SeedError>)
    requires Loaded(c) && ordered == Ordered(c.members) && i < |ordered| && LeaderReady(start, c)
    requires Closed(directory.entries)
    requires Progress(c, start, directory.entries, ordered[..i], dryRun, refusing)
    modifies directory
    ensures Closed(directory.entries)
    ensures UniqueScopes(old(directory.entries)) ==> UniqueScopes(directory.entries)
    ensures if r.Success? && r.value then Inserts(old(directory.entries), directory.entries)
            else directory.entries == old(directory.entries)
    ensures r.Success? ==> Progress(c, start, directory.entries, ordered[..i + 1], dryRun, refusing)
    ensures r.Failure? ==>
      !((forall m | m in c.members :: Acceptable(c, m, start, dryRun, refusing))
        && (dryRun || RivalsApart(c.members, start)))
    ensures r.Failure? ==> Blames(r.error, c.members, start)
  {
    hide Wanted, Loaded, LeaderReady, Ordered, ParentOf, Closed, Inserts, Acceptable, Progress;
    hide RivalsApart, RivalDone, UniqueScopes, Registered, Blames;
    var m := ordered[i];
    ghost var before := directory.entries;
    BeforeOne(c, ordered, i, start, before, dryRun, refusing);
    r := SeedOne(c, m, directory, dryRun, refusing);
    if r.Failure? {
      StopsHere(c, ordered, i, start, dryRun, refusing);
      BlamesThis(c.members, m, start, before, r.error);
    } else {
      AfterOne(c, ordered, i, start, before, directory.entries, dryRun, refusing);
    }
  }

  /** What a member meets when its turn comes: its parent on file, its own entry as it was at
      the start if there is one, and the verdict the start would have given, rivals aside. */
  lemma BeforeOne(c: Config, ordered: seq<Member>, i: nat, start: Directory, before: Directory,
                  dryRun: bool, refusing: set<string>)
    requires Loaded(c) && ordered == Ordered(c.members) && i < |ordered| && LeaderReady(start, c)
    requires Progress(c, start, before, ordered[..i], dryRun, refusing)
    ensures ordered[i] in c.members && forall m :: m in ordered <==> m in c.members
    ensures ParentOf(c, ordered[i]).Some? && (!dryRun ==> ParentOf(c, ordered[i]).value in before)
    ensures ordered[i].agentId in before <==> ordered[i].agentId in start
    ensures ordered[i].agentId in before ==> before[ordered[i].agentId] == start[ordered[i].agentId]
    ensures Acceptable(c, ordered[i], before, dryRun, refusing)
       <==> Acceptable(c, ordered[i], start, dryRun, refusing)
            && (dryRun || !RivalDone(ordered[..i], ordered[i], start))
  {
    OrderedFacts(c.members);
    assert ordered[i] in ordered;
    ParentOnFile(c, ordered, i, start, before, dryRun, refusing);
    FreshUnlessOld(c, ordered, i, start, before, dryRun, refusing);
    AcceptableNow(c, ordered, i, start, before, dryRun, refusing);
    hide Wanted, Loaded, LeaderReady, Ordered, ParentOf, Acceptable, RivalDone, RivalsApart;
  }

  /** And what holds once it has been verified or inserted. */
  lemma AfterOne(c: Config, ordered: seq<Member>, i: nat, start: Directory, before: Directory, now: Directory,
                 dryRun: bool, refusing: set<string>)
    requires i < |ordered| && Progress(c, start, before, ordered[..i], dryRun, refusing)
    requires ordered[i].agentId in before ==> ordered[i].agentId in start
    requires Acceptable(c, ordered[i], before, dryRun, refusing) && Acceptable(c, ordered[i], start, dryRun, refusing)
    requires dryRun || !RivalDone(ordered[..i], ordered[i], start)
    requires if ordered[i].agentId in before || dryRun then now == before
             else now == before[ordered[i].agentId := Wanted(c, ordered[i])]
    ensures Progress(c, start, now, ordered[..i + 1], dryRun, refusing)
  {
    hide Wanted, Acceptable, Progress, RivalDone;
    ProgressNext(c, start, before, now, ordered[..i], ordered[i], dryRun, refusing);
    assert ordered[..i + 1] == ordered[..i] + [ordered[i]];
  }

  lemma BlamesThis(ms: seq<Member>, m: Member, start: Directory, before: Directory, error: SeedError)
    requires m in ms && (m.agentId in before <==> m.agentId in start)
    requires m.agentId in before ==> before[m.agentId] == start[m.agentId]
    requires error == if m.agentId in before then Drift(m.key, before[m.agentId]) else DirectoryRefused(m.key)
    ensures Blames(error, ms, start)
  {
  }

  lemma StartsEmpty(c: Config, start: Directory, dryRun: bool, refusing: set<string>)
    ensures Progress(c, start, start, [], dryRun, refusing)
  {
  }

  /** The loop's end is what a successful run promises. */
  lemma EndsWell(c: Config, ordered: seq<Member>, start: Directory, now: Directory, dryRun: bool, refusing: set<string>)
    requires Progress(c, start, now, ordered, dryRun, refusing)
    requires forall m :: m in ordered <==> m in c.members
    ensures forall m | m in c.members :: Acceptable(c, m, start, dryRun, refusing)
    ensures dryRun || RivalsApart(c.members, start)
    ensures !dryRun ==> forall m | m in c.members :: m.agentId in now && now[m.agentId] == Wanted(c, m)
    ensures forall id | id in now && id !in start :: exists m :: m in c.members && m.agentId == id
  {
    hide Acceptable, Wanted;
    forall id | id in now && id !in start ensures exists m :: m in c.members && m.agentId == id {
      var m :| m in ordered && m.agentId == id;
      assert m in c.members;
    }
  }

  /** A member the run stops at breaks the condition for success. */
  lemma StopsHere(c: Config, ordered: seq<Member>, i: nat, start: Directory, dryRun: bool, refusing: set<string>)
    requires i < |ordered| && forall m :: m in ordered <==> m in c.members
    requires !Acceptable(c, ordered[i], start, dryRun, refusing)
             || (!dryRun && RivalDone(ordered[..i], ordered[i], start))
    ensures !((forall m | m in c.members :: Acceptable(c, m, start, dryRun, refusing))
              && (dryRun || RivalsApart(c.members, start)))
  {
    hide Acceptable;
    assert ordered[i] in ordered;
    if !dryRun && RivalDone(ordered[..i], ordered[i], start) {
      var n :| n in ordered[..i] && Rivals(n, ordered[i]) && n.agentId !in start && ordered[i].agentId !in start;
      assert n in ordered;
    }
  }

  /** A rival has been inserted by this run, and the member is not on file. */
  ghost predicate RivalDone(done: seq<Member>, m: Member, start: Directory) {
    exists n :: n in done && Rivals(n, m) && n.agentId !in start && m.agentId !in start
  }

  /** What the directory met now accepts is what the one at the start did, rivals aside. */
  lemma AcceptableNow(c: Config, ordered: seq<Member>, i: nat, start: Directory, now: Directory,
                      dryRun: bool, refusing: set<string>)
    requires Loaded(c) && ordered == Ordered(c.members) && i < |ordered|
    requires Progress(c, start, now, ordered[..i], dryRun, refusing)
    requires ordered[i].agentId in now ==> ordered[i].agentId in start
    ensures Acceptable(c, ordered[i], now, dryRun, refusing)
       <==> Acceptable(c, ordered[i], start, dryRun, refusing)
            && (dryRun || !RivalDone(ordered[..i], ordered[i], start))
  {
    var m := ordered[i];
    if !dryRun && m.agentId !in start {
      CollidesNow(c, ordered, i, start, now, refusing);
    }
  }

  lemma CollidesNow(c: Config, ordered: seq<Member>, i: nat, start: Directory, now: Directory, refusing: set<string>)
    requires Loaded(c) && ordered == Ordered(c.members) && i < |ordered|
    requires Progress(c, start, now, ordered[..i], false, refusing) && ordered[i].agentId !in now
    ensures Collides(now, Wanted(c, ordered[i]))
       <==> Collides(start, Wanted(c, ordered[i])) || RivalDone(ordered[..i], ordered[i], start)
  {
    var m, done := ordered[i], ordered[..i];
    var p := Wanted(c, m);
    if Collides(start, p) {
      var id :| id in start && (SameScope(start[id], p) || SameResource(start[id], p));
      assert id in now && now[id] == start[id];
    }
    if RivalDone(done, m, start) {
      var n :| n in done && Rivals(n, m) && n.agentId !in start;
      ScopesMatch(c, n, m);
      assert now[n.agentId] == Wanted(c, n);
    }
    if Collides(now, p) && !Collides(start, p) {
      var id :| id in now && (SameScope(now[id], p) || SameResource(now[id], p));
      assert id !in start;
      var n :| n in done && n.agentId == id;
      var k :| 0 <= k < i && ordered[k] == n;
      OrderedApart(c.members, k, i);
      ScopesMatch(c, n, m);
    }
  }

  /** Two members' descriptions never share a resource, and share a scope only as rivals. */
  lemma ScopesMatch(c: Config, n: Member, m: Member)
    requires n != m
    ensures SameScope(Wanted(c, n), Wanted(c, m)) <==> Rivals(n, m)
    ensures SameResource(Wanted(c, n), Wanted(c, m)) <==> n.resource == m.resource
  {
    if n.isLeader && m.isLeader {
      LeaderKeyTells(n.repositoryId, m.repositoryId);
    }
  }

  lemma LeaderKeyTells(a: string, b: string)
    ensures "repository:" + a + ":leader" == "repository:" + b + ":leader" <==> a == b
  {
    var x, y := "repository:" + a + ":leader", "repository:" + b + ":leader";
    if x == y {
      assert |a| == |b|;
      assert a == x[11..11 + |a|] == y[11..11 + |b|] == b;
    }
  }

  /** No directory that keeps its constraints can be seeded with a roster that names two
      leaders of one repository, whatever is on file already. */
  lemma TwoLeadersCannotBeSeeded(c: Config, start: Directory, refusing: set<string>, m: Member, n: Member)
    requires UniqueScopes(start) && UniqueMembers(c.members)
    requires m in c.members && n in c.members && Rivals(m, n)
    ensures !((forall x | x in c.members :: Acceptable(c, x, start, false, refusing))
              && RivalsApart(c.members, start))
  {
    ScopesMatch(c, m, n);
    ScopesMatch(c, n, m);
    var i :| 0 <= i < |c.members| && c.members[i] == m;
    var j :| 0 <= j < |c.members| && c.members[j] == n;
    assert i < j || j < i;
    assert m.agentId != n.agentId;
    hide Wanted, Rivals;
    if m.agentId in start && n.agentId in start {
      assert !SameScope(start[m.agentId], start[n.agentId]);
    } else if m.agentId in start {
      assert start[m.agentId] == Wanted(c, m) ==> Collides(start, Wanted(c, n));
    } else if n.agentId in start {
      assert start[n.agentId] == Wanted(c, n) ==> Collides(start, Wanted(c, m));
    }
  }

  /** One round of the loop: verify the member if it is on file, or insert it. */
  method SeedOne(c: Config, m: Member, directory: AgentDirectory, dryRun: bool, refusing: set<string>)
    returns (r: Result<bool, SeedError>)
    requires Closed(directory.entries) && ParentOf(c, m).Some?
    requires !dryRun ==> ParentOf(c, m).value in directory.entries
    modifies directory
    ensures Closed(directory.entries)
    ensures UniqueScopes(old(directory.entries)) ==> UniqueScopes(directory.entries)
    ensures r.Success? <==> Acceptable(c, m, old(directory.entries), dryRun, refusing)
    ensures r.Success? && r.value ==>
      && m.agentId !in old(directory.entries) && !dryRun
      && directory.entries == old(directory.entries)[m.agentId := Wanted(c, m)]
      && Registered(directory.entries[m.agentId], m, c)
      && directory.entries[m.agentId].leader == ParentOf(c, m)
      && Inserts(old(directory.entries), directory.entries)
    ensures !(r.Success? && r.value) ==> directory.entries == old(directory.entries)
    ensures r.Success? && !r.value ==> dryRun || m.agentId in directory.entries
    ensures r.Failure? ==>
      r.error == if m.agentId in old(directory.entries) then Drift(m.key, old(directory.entries)[m.agentId])
                 else DirectoryRefused(m.key)
  {
    var parent := ParentOf(c, m);
    var wanted := BuildPrincipal(m, c, parent.value);
    if m.agentId in directory.entries {
      if directory.entries[m.agentId] != wanted {
        return Failure(Drift(m.key, directory.entries[m.agentId]));
      }
      return Success(false);
    }
    if dryRun {
      return Success(false);
    }
    ghost var before := directory.entries;
    var ok := directory.Add(wanted, refusing);
    if !ok {
      return Failure(DirectoryRefused(m.key));
    }
    assert m.agentId in directory.entries && directory.entries == before[m.agentId := directory.entries[m.agentId]];
    r := Success(true);
  }

  lemma ProgressNext(c: Config, start: Directory, before: Directory, now: Directory, done: seq<Member>, m: Member,
                     dryRun: bool, refusing: set<string>)
    requires Progress(c, start, before, done, dryRun, refusing)
    requires m.agentId in before ==> m.agentId in start
    requires Acceptable(c, m, before, dryRun, refusing) && Acceptable(c, m, start, dryRun, refusing)
    requires dryRun || !RivalDone(done, m, start)
    requires if m.agentId in before || dryRun then now == before else now == before[m.agentId := Wanted(c, m)]
    ensures Progress(c, start, now, done + [m], dryRun, refusing)
  {
    RivalsNext(done, m, start, dryRun);
    hide Acceptable, Wanted, RivalsApart, RivalDone;
    forall id | id in now && id !in start ensures exists n :: n in done + [m] && n.agentId == id {
      if id in before {
        var n :| n in done && n.agentId == id;
        assert n in done + [m];
      } else {
        assert m in done + [m];
      }
    }
    assert dryRun || now[m.agentId] == Wanted(c, m) by { AcceptedIsAsDescribed(c, m, before, dryRun, refusing); }
  }

  lemma AcceptedIsAsDescribed(c: Config, m: Member, d: Directory, dryRun: bool, refusing: set<string>)
    requires Acceptable(c, m, d, dryRun, refusing)
    ensures m.agentId in d ==> d[m.agentId] == Wanted(c, m)
  {
  }

  lemma RivalsNext(done: seq<Member>, m: Member, start: Directory, dryRun: bool)
    requires dryRun || (RivalsApart(done, start) && !RivalDone(done, m, start))
    ensures dryRun || RivalsApart(done + [m], start)
  {
    if !dryRun {
      forall a, b | a in done + [m] && b in done + [m] && Rivals(a, b)
        ensures a.agentId in start || b.agentId in start
      {
        if a == m {
          assert b in done && Rivals(b, m);
        } else if b == m {
          assert a in done;
        } else {
          assert a in done && b in done;
        }
      }
    }
  }

  /** After a prefix of the members: old entries stand, the members seen are acceptable
      and, unless nothing is written, on file as described; nothing else was added. */
  ghost predicate Progress(c: Config, start: Directory, now: Directory, done: seq<Member>,
                           dryRun: bool, refusing: set<string>)
  {
    && (forall id | id in start :: id in now && now[id] == start[id])
    && (forall id | id in now && id !in start :: exists m :: m in done && m.agentId == id)
    && (forall m | m in done :: Acceptable(c, m, start, dryRun, refusing))
    && (dryRun || RivalsApart(done, start))
    && (if dryRun then now == start
        else forall m | m in done :: m.agentId in now && now[m.agentId] == Wanted(c, m))
  }

  lemma OrderedFacts(ms: seq<Member>)
    ensures forall m :: m in Ordered(ms) <==> m in ms
  {
    forall m ensures m in Ordered(ms) <==> m in ms {
      OnlyHas(ms, true, m);
      OnlyHas(ms, false, m);
    }
  }

  /** A worker's leader precedes it, so its parent is on file when it is reached. */
  lemma LeaderComesFirst(ms: seq<Member>, i: nat, l: Member)
    requires i < |Ordered(ms)| && !Ordered(ms)[i].isLeader && l in ms && l.isLeader
    ensures l in Ordered(ms)[..i]
  {
    var leaders := Only(ms, true);
    OnlyHas(ms, true, l);
    OnlyHas(ms, true, Ordered(ms)[i]);
    assert Ordered(ms)[i] == (leaders + Only(ms, false))[i];
    var k :| 0 <= k < |leaders| && leaders[k] == l;
    assert Ordered(ms)[..i][k] == l;
  }

  lemma ParentOnFile(c: Config, ordered: seq<Member>, i: nat, start: Directory, now: Directory,
                     dryRun: bool, refusing: set<string>)
    requires Loaded(c) && ordered == Ordered(c.members) && i < |ordered|
    requires LeaderReady(start, c) && Progress(c, start, now, ordered[..i], dryRun, refusing)
    ensures ParentOf(c, ordered[i]).Some?
    ensures Wanted(c, ordered[i]) == BuildPrincipal(ordered[i], c, ParentOf(c, ordered[i]).value)
    ensures !dryRun ==> ParentOf(c, ordered[i]).value in now
  {
    var m := ordered[i];
    OrderedFacts(c.members);
    assert m in ordered;
    if !m.isLeader {
      assert LedBy(m, c.members);
      var l :| l in c.members && l.isLeader && m.leaderKey == Some(l.key) && l.repositoryId == m.repositoryId;
      ByKeyFinds(c.members, l);
      LeaderComesFirst(c.members, i, l);
    }
  }

  /** A member found on file was there from the start: roster ids are distinct. */
  lemma FreshUnlessOld(c: Config, ordered: seq<Member>, i: nat, start: Directory, now: Directory,
                       dryRun: bool, refusing: set<string>)
    requires Loaded(c) && ordered == Ordered(c.members) && i < |ordered|
    requires Progress(c, start, now, ordered[..i], dryRun, refusing)
    ensures ordered[i].agentId in now ==> ordered[i].agentId in start
  {
    if ordered[i].agentId in now && ordered[i].agentId !in start {
      var m :| m in ordered[..i] && m.agentId == ordered[i].agentId;
      var k :| 0 <= k < i && ordered[k] == m;
      OrderedDistinct(c.members, k, i);
    }
  }

  lemma {:induction false} OnlyDistinct(ms: seq<Member>, leaders: bool)
    requires UniqueMembers(ms)
    ensures Distinct(Only(ms, leaders))
  {
    if ms != [] {
      var front, last := ms[..|ms| - 1], ms[|ms| - 1];
      OnlyDistinct(front, leaders);
      OnlyHas(front, leaders, last);
      forall k | 0 <= k < |front| ensures front[k] != last {
        assert ms[k].key != ms[|ms| - 1].key;
      }
    }
  }

  lemma OrderedApart(ms: seq<Member>, k: nat, i: nat)
    requires UniqueMembers(ms) && k < i < |Ordered(ms)|
    ensures Ordered(ms)[k] != Ordered(ms)[i] && Ordered(ms)[k].resource != Ordered(ms)[i].resource
  {
    var o := Ordered(ms);
    OrderedDistinct(ms, k, i);
    OrderedFacts(ms);
    assert o[k] in o && o[i] in o;
    var a :| 0 <= a < |ms| && ms[a] == o[k];
    var b :| 0 <= b < |ms| && ms[b] == o[i];
    assert a < b || b < a;
  }

  lemma OrderedDistinct(ms: seq<Member>, k: nat, i: nat)
    requires UniqueMembers(ms) && k < i < |Ordered(ms)|
    ensures Ordered(ms)[k].agentId != Ordered(ms)[i].agentId
  {
    var o, leaders := Ordered(ms), Only(ms, true);
    OnlyDistinct(ms, true);
    OnlyDistinct(ms, false);
    OrderedFacts(ms);
    assert o[k] in o && o[i] in o;
    assert o[k] != o[i] by {
      OnlyHas(ms, true, o[k]);
      OnlyHas(ms, false, o[i]);
      if i < |leaders| {
        assert o[k] == leaders[k] && o[i] == leaders[i];
      } else if k >= |leaders| {
        var workers := Only(ms, false);
        assert o[k] == workers[k - |leaders|] && o[i] == workers[i - |leaders|];
      } else {
        assert o[k] in leaders && o[i] in Only(ms, false);
      }
    }
    var a :| 0 <= a < |ms| && ms[a] == o[k];
    var b :| 0 <= b < |ms| && ms[b] == o[i];
    assert a < b || b < a;
  }

  /** After a successful run every member is on file as described, so a second run finds
      nothing to insert and nothing to object to, whatever the database would refuse. */
  method SeedTwice(c: Config, directory: AgentDirectory, refusing: set<string>, refusingLater: set<string>)
    returns (first: Result<nat, SeedError>, second: Result<nat, SeedError>, ghost seeded: Directory)
    requires Loaded(c) && Closed(directory.entries)
    modifies directory
    ensures first.Success? ==> second == Success(0) && directory.entries == seeded
    ensures first.Success? ==> forall m | m in c.members :: m.agentId in seeded && seeded[m.agentId] == Wanted(c, m)
    ensures Closed(directory.entries)
  {
    ghost var steps: seq<Directory>, again: seq<Directory>;
    ghost var start := directory.entries;
    first, steps := Seed(c, directory, false, refusing);
    seeded := directory.entries;
    second, again := Seed(c, directory, false, refusingLater);
    if first.Success? {
      assert LeaderReady(seeded, c);
      assert second.Success?;
      NothingInserted(c, seeded, directory.entries, again);
    }
  }

  lemma NothingInserted(c: Config, seeded: Directory, now: Directory, steps: seq<Directory>)
    requires Trail(steps, seeded, now)
    requires now.Keys == seeded.Keys
    ensures |steps| == 1
  {
    StepsGrow(steps, |steps| - 1);
  }

  lemma {:induction false} StepsGrow(steps: seq<Directory>, k: nat)
    requires k < |steps| && forall i | 0 <= i < |steps| - 1 :: Inserts(steps[i], steps[i + 1])
    ensures |steps[k].Keys| == |steps[0].Keys| + k
  {
    if k > 0 {
      StepsGrow(steps, k - 1);
      assert Inserts(steps[k - 1], steps[k - 1 + 1]);
      var id :| id !in steps[k - 1] && id in steps[k] && steps[k] == steps[k - 1][id := steps[k][id]];
      assert steps[k].Keys == steps[k - 1].Keys + {id};
    }
  }
}
