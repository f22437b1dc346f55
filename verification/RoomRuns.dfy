/** Runs of the room protocol that show where a wish about it fails. */
module RoomRuns {
  import opened Common
  import opened BridgeStore
  import opened InboxTurns
  import opened OutboxSends
  import opened Names
  import opened Protocol

  /** Some run from a fresh start takes these steps and ends in this world. */
  ghost predicate Reaches(c: Config, ls: seq<Label>, w: World) {
    exists ws :: IsRun(c, ws, ls) && ws[|ls|] == w
  }

  lemma Begins(c: Config, w: World)
    requires Init(w)
    ensures Reaches(c, [], w)
  {
    assert IsRun(c, [w], []);
  }

  lemma Step(c: Config, ls: seq<Label>, w: World, l: Label) returns (longer: seq<Label>, next: World)
    requires Reaches(c, ls, w) && Enabled(c, w, l)
    ensures longer == ls + [l] && next == Next(c, w, l) && Reaches(c, longer, next)
  {
    hide Next, Enabled;
    longer, next := ls + [l], Next(c, w, l);
    var ws :| IsRun(c, ws, ls) && ws[|ls|] == w;
    var ws' := ws + [next];
    forall i | 0 <= i < |longer| ensures Enabled(c, ws'[i], longer[i]) && ws'[i + 1] == Next(c, ws'[i], longer[i]) {
      if i < |ls| {
        assert ws'[i] == ws[i] && ws'[i + 1] == ws[i + 1] && longer[i] == ls[i];
      }
    }
    assert IsRun(c, ws', longer);
  }

  function Fresh(log: seq<RoomEvent>): World {
    World(None, map[], Disk(None, [], map[], []), log, [], multiset{}, None)
  }

  /** A process has the lock and serves. */
  function Started(log: seq<RoomEvent>): World {
    Fresh(log).(lock := Some(0), procs := map[0 := Serving({}, Idle, NoTurn, None)])
  }

  lemma Starts(c: Config, log: seq<RoomEvent>) returns (ls: seq<Label>)
    requires DistinctIds(log)
    ensures Reaches(c, ls, Started(log))
  {
    Begins(c, Fresh(log));
    var w: World;
    ls, w := Step(c, [], Fresh(log), Acquire(0));
    ls, w := Step(c, ls, w, Open(0));
    assert w.procs == map[0 := Serving({}, Idle, NoTurn, None)];
  }

  // --- A dead letter the room has ------------------------------------------------------------

  function Intent(c: Config, to: Destination, o: Observation, now: int): OutboxRow {
    RowFor(c.naming, to, o, RUN_LANE, 0, now)
  }

  /** One intent on disk, what the room shows and what is on its way there. */
  function Stored(row: OutboxRow, timeline: seq<Post>, wire: multiset<Request>): World {
    Started([]).(disk := Disk(None, [], map[], [row]), timeline := timeline, wire := wire)
  }

  function Shown(row: OutboxRow, eventId: string): seq<Post> {
    [Post(row.txnId, row.roomId, row.threadRoot, row.body, eventId)]
  }

  lemma Stores(c: Config, to: Destination, o: Observation, now: int)
    requires c.storable(o.body)
    ensures Enabled(c, Started([]), EnqueueAt(0, to, o, 0, now))
    ensures Next(c, Started([]), EnqueueAt(0, to, o, 0, now)) == Stored(Intent(c, to, o, now), [], multiset{})
  {
  }

  lemma Sends(c: Config, row: OutboxRow)
    requires Pending(row)
    ensures Enabled(c, Stored(row, [], multiset{}), Send(0, 0))
    ensures Next(c, Stored(row, [], multiset{}), Send(0, 0)) == Stored(row, [], multiset{RequestFor(row)})
  {
  }

  lemma Arrives(c: Config, row: OutboxRow, eventId: string)
    ensures Enabled(c, Stored(row, [], multiset{RequestFor(row)}), Deliver(RequestFor(row), eventId))
    ensures Next(c, Stored(row, [], multiset{RequestFor(row)}), Deliver(RequestFor(row), eventId))
         == Stored(row, Shown(row, eventId), multiset{})
  {
    assert [] + Shown(row, eventId) == Shown(row, eventId);
  }

  lemma PutsDown(c: Config, row: OutboxRow, timeline: seq<Post>, wire: multiset<Request>, now: int)
    requires Pending(row)
    ensures Enabled(c, Stored(row, timeline, wire), Refuse(0, 0, now))
    ensures Next(c, Stored(row, timeline, wire), Refuse(0, 0, now))
         == Stored(row.(refusedAt := Some(now)), timeline, wire)
  {
  }

  /** The intent is on disk and its first request under way. */
  lemma SentIsReached(c: Config, to: Destination, o: Observation, now: int) returns (ls: seq<Label>)
    requires c.storable(o.body)
    ensures Reaches(c, ls, Stored(Intent(c, to, o, now), [], multiset{RequestFor(Intent(c, to, o, now))}))
  {
    ls := Starts(c, []);
    hide Reaches, Next;
    var w: World;
    Stores(c, to, o, now);
    ls, w := Step(c, ls, Started([]), EnqueueAt(0, to, o, 0, now));
    hide Enabled;
    Sends(c, Intent(c, to, o, now));
    ls, w := Step(c, ls, w, Send(0, 0));
  }

  /** A message is posted, its answer cannot be read, and the intent is put down: the outbox
      calls it a dead letter and the room shows it. */
  lemma DeadLetterWasPosted(c: Config, to: Destination, o: Observation, eventId: string, now: int)
    returns (ls: seq<Label>, w: World)
    requires c.storable(o.body)
    ensures Reaches(c, ls, w) && ls != [] && ls[|ls| - 1].Refuse?
    ensures |w.disk.outbox| == 1 && w.disk.outbox[0].refusedAt.Some? && Known(w.timeline, w.disk.outbox[0].txnId)
  {
    var row := Intent(c, to, o, now);
    ls := SentIsReached(c, to, o, now);
    hide Reaches, Next, Enabled;
    Arrives(c, row, eventId);
    ls, w := Step(c, ls, Stored(row, [], multiset{RequestFor(row)}), Deliver(RequestFor(row), eventId));
    PutsDown(c, row, Shown(row, eventId), multiset{}, now);
    ls, w := Step(c, ls, w, Refuse(0, 0, now));
    assert Shown(row, eventId)[0] in w.timeline;
  }

  /** A request is given up on, a resend of it is refused, and then the first one arrives:
      the dead letter is posted after it was put down. */
  lemma DeadLetterIsPostedLate(c: Config, to: Destination, o: Observation, eventId: string, now: int)
    returns (ls: seq<Label>, before: World, after: World, late: Label)
    requires c.storable(o.body)
    ensures Reaches(c, ls, before) && Reaches(c, ls + [late], after) && late.Deliver?
    ensures |before.disk.outbox| == 1 && before.disk.outbox[0].refusedAt.Some? && after.disk == before.disk
    ensures !Known(before.timeline, before.disk.outbox[0].txnId)
    ensures Known(after.timeline, after.disk.outbox[0].txnId)
  {
    var row := Intent(c, to, o, now);
    var dead := row.(refusedAt := Some(now));
    ls := SentIsReached(c, to, o, now);
    hide Reaches, Next, Enabled;
    PutsDown(c, row, [], multiset{RequestFor(row)}, now);
    ls, before := Step(c, ls, Stored(row, [], multiset{RequestFor(row)}), Refuse(0, 0, now));
    late := Deliver(RequestFor(dead), eventId);
    Arrives(c, dead, eventId);
    var longer: seq<Label>;
    longer, after := Step(c, ls, before, late);
    assert Shown(dead, eventId)[0] in after.timeline;
  }

  // --- A timed-out turn nobody offers again ----------------------------------------------------

  /** A served world with one event in the log and the cursor at a position. */
  function Working(e: RoomEvent, disk: Disk, active: set<TurnKey>, round: Round, turn: Turn): World {
    Started([e]).(disk := disk, procs := map[0 := Serving(active, round, turn, None)], baseline := Some(0))
  }

  function Quiet(now: int): Disk {
    Disk(Some(SyncCursor(0, Some(now), 0)), [], map[], [])
  }

  lemma BaselineOfNothing(c: Config, now: int)
    ensures Enabled(c, Started([]), Baseline(0, 0, 0, now))
    ensures Next(c, Started([]), Baseline(0, 0, 0, now)) == Started([]).(disk := Quiet(now), baseline := Some(0))
  {
  }

  lemma SpeaksUp(c: Config, e: RoomEvent, now: int)
    ensures var w := Started([]).(disk := Quiet(now), baseline := Some(0));
            Enabled(c, w, Arrive(e)) && Next(c, w, Arrive(e)) == Working(e, Quiet(now), {}, Idle, NoTurn)
  {
    assert [] + [e] == [e];
  }

  lemma SelectedOne(e: RoomEvent, me: string, rooms: seq<string>)
    requires Addressed(e, me, rooms)
    ensures Selected([e], [], me, rooms) == [TriggerFor(e)]
  {
    assert [e][..0] == [];
    assert Selected([e][..0], [], me, rooms) == [];
  }

  /** Nothing is committed yet and nothing is seen. */
  predicate AtTheStart(disk: Disk) {
    disk.cursor.Some? && disk.cursor.value.baselineAt.Some? && disk.cursor.value.sinceToken == 0 && disk.seen == []
  }

  lemma Offers(c: Config, e: RoomEvent, disk: Disk)
    requires Addressed(e, c.me, c.rooms) && AtTheStart(disk)
    ensures Enabled(c, Working(e, disk, {}, Idle, NoTurn), Sync(0, 0, 1))
    ensures Next(c, Working(e, disk, {}, Idle, NoTurn), Sync(0, 0, 1))
         == Working(e, disk, {}, Holding(0, 1, [TriggerFor(e)]), NoTurn)
  {
    SelectedOne(e, c.me, c.rooms);
    assert [e][0..1] == [e];
  }

  lemma Claims(c: Config, e: RoomEvent, now: int)
    ensures var w, t := Working(e, Quiet(now), {}, Holding(0, 1, [TriggerFor(e)]), NoTurn), TriggerFor(e);
            && Enabled(c, w, Label.Claim(0))
            && Next(c, w, Label.Claim(0))
            == Working(e, Quiet(now).(turns := map[KeyOf(t) := InFlight]), {KeyOf(t)}, Holding(0, 1, []), Deciding(t))
  {
    var t := TriggerFor(e);
    var w := Working(e, Quiet(now), {}, Holding(0, 1, [t]), NoTurn);
    assert [t][1..] == [];
    assert Decide(map[], {}, KeyOf(t)) == New;
    assert Claimed(w, 0).disk == Quiet(now).(turns := map[KeyOf(t) := InFlight]);
    assert Holding(0, 1, [t]).(todo := [t][1..]) == Holding(0, 1, []);
    assert {} + {KeyOf(t)} == {KeyOf(t)};
    assert Claimed(w, 0).procs[0] == Serving({KeyOf(t)}, Holding(0, 1, []), Deciding(t), None);
    assert Claimed(w, 0).procs == map[0 := Serving({KeyOf(t)}, Holding(0, 1, []), Deciding(t), None)];
  }

  lemma ClaimRefused(c: Config, e: RoomEvent, disk: Disk)
    requires disk.turns == map[KeyOf(TriggerFor(e)) := Completed]
    ensures var w := Working(e, disk, {}, Holding(0, 1, [TriggerFor(e)]), NoTurn);
            && Enabled(c, w, Label.Claim(0))
            && Next(c, w, Label.Claim(0)) == Working(e, disk, {}, Holding(0, 1, []), NoTurn)
  {
    var t := TriggerFor(e);
    assert [t][1..] == [];
    assert Decide(disk.turns, {}, KeyOf(t)) == Settled;
    assert Holding(0, 1, [t]).(todo := [t][1..]) == Holding(0, 1, []);
  }

  /** Where an answer to this event goes. */
  function Back(e: RoomEvent): Destination {
    Destination(e.roomId, e.threadRoot, e.eventId)
  }

  lemma RunsOut(c: Config, e: RoomEvent, disk: Disk, o: Observation, now: int)
    requires c.storable(o.body)
    ensures var t, l := TriggerFor(e), Answer(0, NOTE_LANE, [o], "timeout", now);
            var w := Working(e, disk, {KeyOf(t)}, Holding(0, 1, []), Deciding(t));
            var noted := disk.(outbox := Enqueued(disk.outbox, c.naming, Back(e), [o], NOTE_LANE, now));
            && Enabled(c, w, l)
            && Next(c, w, l) == Working(e, noted, {KeyOf(t)}, Holding(0, 1, []), Answered(t, "timeout"))
  {
    hide Enqueued;
    assert NOTE_LANE == LANES[1] && "timeout" == ANSWER_STATUSES[3];
  }

  lemma Forgets(c: Config, e: RoomEvent, disk: Disk)
    requires disk.turns == map[KeyOf(TriggerFor(e)) := InFlight]
    ensures var w := Working(e, disk, {KeyOf(TriggerFor(e))}, Holding(0, 1, []), Answered(TriggerFor(e), "timeout"));
            && Enabled(c, w, Label.Settle(0))
            && Next(c, w, Label.Settle(0)) == Working(e, disk.(turns := map[]), {}, Holding(0, 1, []), NoTurn)
  {
    TimeoutForgets(disk.turns, KeyOf(TriggerFor(e)));
    assert {KeyOf(TriggerFor(e))} - {KeyOf(TriggerFor(e))} == {};
    assert disk.turns - {KeyOf(TriggerFor(e))} == map[];
  }

  lemma TimeoutForgets(turns: map<TurnKey, TurnState>, key: TurnKey)
    ensures KnownStatus("timeout") && SettledTurns(turns, key, "timeout") == turns - {key}
  {
    assert "timeout"[0] == 't' && "completed"[0] == 'c' && "failed"[0] == 'f' && "blocked"[0] == 'b';
    assert "timeout" == ["timeout", "cancelled", "interrupted"][0];
  }

  lemma Acknowledges(c: Config, e: RoomEvent, disk: Disk)
    requires disk.cursor.Some?
    ensures var w := Working(e, disk, {}, Holding(0, 1, []), NoTurn);
            && Enabled(c, w, Label.Commit(0))
            && Next(c, w, Label.Commit(0))
            == Working(e, CommitBatch(disk, 1, EventIds([e][0..1]), NewestTs([e][0..1]), None), {}, Idle, NoTurn)
  {
    hide CommitBatch, EventIds, NewestTs;
  }

  lemma OffersNothing(c: Config, e: RoomEvent, disk: Disk)
    requires disk.cursor.Some? && disk.cursor.value.baselineAt.Some? && disk.cursor.value.sinceToken == 1
    ensures var w := Working(e, disk, {}, Idle, NoTurn);
            && Enabled(c, w, Sync(0, 1, 1))
            && Next(c, w, Sync(0, 1, 1)) == Working(e, disk, {}, Holding(1, 1, []), NoTurn)
  {
    assert [e][1..1] == [];
  }

  lemma OfferedIsReached(c: Config, e: RoomEvent, now: int) returns (ls: seq<Label>)
    requires Addressed(e, c.me, c.rooms)
    ensures Reaches(c, ls, Working(e, Quiet(now), {}, Holding(0, 1, [TriggerFor(e)]), NoTurn))
  {
    ls := Starts(c, []);
    hide Reaches, Next, Enabled;
    var w: World;
    BaselineOfNothing(c, now);
    ls, w := Step(c, ls, Started([]), Baseline(0, 0, 0, now));
    SpeaksUp(c, e, now);
    ls, w := Step(c, ls, w, Arrive(e));
    Offers(c, e, w.disk);
    ls, w := Step(c, ls, w, Sync(0, 0, 1));
  }

  /** The turn runs out of time, the room is told, the round commits; the next sync resumes
      at the cursor, with the event still in the log and the ledger ready to grant its turn
      as new, and offers nothing. */
  lemma TimedOutTurnIsNotOffered(c: Config, e: RoomEvent, o: Observation, now: int)
    returns (ls: seq<Label>, before: World, after: World)
    requires Addressed(e, c.me, c.rooms) && c.storable(o.body)
    ensures Reaches(c, ls, before) && ls != [] && ls[|ls| - 1].Commit?
    ensures before.disk.cursor.Some? && before.log == [e]
    ensures Enabled(c, before, Sync(0, before.disk.cursor.value.sinceToken, 1))
    ensures after == Next(c, before, Sync(0, before.disk.cursor.value.sinceToken, 1))
    ensures Serves(after, 0) && after.procs[0].round == Holding(before.disk.cursor.value.sinceToken, 1, [])
    ensures Decide(after.disk.turns, after.procs[0].active, KeyOf(TriggerFor(e))) == New
  {
    ls := OfferedIsReached(c, e, now);
    hide Reaches, Next, Enabled, Enqueued, Remembered, NewestTs, EventIds, KeyOf, TriggerFor, Addressed, LANES;
    var w: World;
    Claims(c, e, now);
    ls, w := Step(c, ls, Working(e, Quiet(now), {}, Holding(0, 1, [TriggerFor(e)]), NoTurn), Label.Claim(0));
    RunsOut(c, e, w.disk, o, now);
    ls, w := Step(c, ls, w, Answer(0, NOTE_LANE, [o], "timeout", now));
    Forgets(c, e, w.disk);
    ls, w := Step(c, ls, w, Label.Settle(0));
    Acknowledges(c, e, w.disk);
    ls, before := Step(c, ls, w, Label.Commit(0));
    OffersNothing(c, e, before.disk);
    after := Next(c, before, Sync(0, 1, 1));
  }

  // --- A completed turn nobody was answered by -----------------------------------------------------

  lemma CannotStore(c: Config, e: RoomEvent, disk: Disk, o: Observation)
    requires !c.storable(o.body) && disk.turns == map[KeyOf(TriggerFor(e)) := InFlight]
    ensures var t, l := TriggerFor(e), Unstored(0, TURN_LANE, [o], "completed", false);
            var w := Working(e, disk, {KeyOf(t)}, Holding(0, 1, []), Deciding(t));
            && Enabled(c, w, l)
            && Next(c, w, l) == Working(e, disk.(turns := map[KeyOf(t) := Completed]), {}, Leaving, NoTurn)
  {
    var t := TriggerFor(e);
    assert TURN_LANE == LANES[0] && "completed" == ANSWER_STATUSES[0];
    assert o in [o];
    assert {KeyOf(t)} - {KeyOf(t)} == {};
    assert disk.turns[KeyOf(t) := Completed] == map[KeyOf(t) := Completed];
  }

  lemma Dies(c: Config, e: RoomEvent, disk: Disk)
    ensures var w := Working(e, disk, {}, Leaving, NoTurn);
            && Enabled(c, w, Crash(0))
            && Next(c, w, Crash(0)) == w.(lock := None, procs := map[])
  {
  }

  lemma Restarts(c: Config, e: RoomEvent, disk: Disk)
    ensures var w := Working(e, disk, {}, Idle, NoTurn);
            var down, locked := w.(lock := None, procs := map[]), w.(procs := map[0 := Locked]);
            && Enabled(c, down, Acquire(0)) && Next(c, down, Acquire(0)) == locked
            && Enabled(c, locked, Open(0)) && Next(c, locked, Open(0)) == w
  {
    var w := Working(e, disk, {}, Idle, NoTurn);
    assert map[0 := Locked][0 := Serving({}, Idle, NoTurn, None)] == w.procs;
  }

  /** The session completes the turn with a text the state file cannot encode. The write
      raises, the turn is recorded completed, the process ends. After the restart the event
      is offered once more, refused as settled, and passed by the cursor: it is handled, and
      the outbox is empty. */
  lemma UnstoredAnswerIsLost(c: Config, e: RoomEvent, o: Observation, now: int)
    returns (ls: seq<Label>, w: World)
    requires Addressed(e, c.me, c.rooms) && !c.storable(o.body)
    ensures Reaches(c, ls, w) && w.log == [e] && w.baseline == Some(0)
    ensures w.disk.cursor.Some? && w.disk.cursor.value.sinceToken == 1
    ensures w.disk.turns == map[KeyOf(TriggerFor(e)) := Completed] && w.disk.outbox == []
  {
    ls := OfferedIsReached(c, e, now);
    hide Reaches, Next, Enabled, Remembered, NewestTs, EventIds, KeyOf, TriggerFor, Addressed, LANES;
    Claims(c, e, now);
    ls, w := Step(c, ls, Working(e, Quiet(now), {}, Holding(0, 1, [TriggerFor(e)]), NoTurn), Label.Claim(0));
    CannotStore(c, e, w.disk, o);
    ls, w := Step(c, ls, w, Unstored(0, TURN_LANE, [o], "completed", false));
    var disk := w.disk;
    Dies(c, e, disk);
    ls, w := Step(c, ls, w, Crash(0));
    Restarts(c, e, disk);
    ls, w := Step(c, ls, w, Acquire(0));
    ls, w := Step(c, ls, w, Open(0));
    ls, w := PassedBy(c, e, disk, ls);
  }

  lemma PassedBy(c: Config, e: RoomEvent, disk: Disk, start: seq<Label>) returns (ls: seq<Label>, w: World)
    requires Addressed(e, c.me, c.rooms) && AtTheStart(disk) && disk.turns == map[KeyOf(TriggerFor(e)) := Completed]
    requires Reaches(c, start, Working(e, disk, {}, Idle, NoTurn))
    ensures Reaches(c, ls, w)
    ensures w == Working(e, CommitBatch(disk, 1, EventIds([e][0..1]), NewestTs([e][0..1]), None), {}, Idle, NoTurn)
  {
    hide Reaches, Next, Enabled, CommitBatch, NewestTs, EventIds, KeyOf, TriggerFor, Addressed;
    Offers(c, e, disk);
    ls, w := Step(c, start, Working(e, disk, {}, Idle, NoTurn), Sync(0, 0, 1));
    ClaimRefused(c, e, disk);
    ls, w := Step(c, ls, w, Label.Claim(0));
    Acknowledges(c, e, disk);
    ls, w := Step(c, ls, w, Label.Commit(0));
  }

  // --- A baseline event that comes back ---------------------------------------------------------

  /** Events with distinct ids, of which only the first mentions this worker. */
  function Filler(room: string, sender: string, k: nat): RoomEvent {
    RoomEvent(Decimal(k), room, sender, "", 0, None, k == 0)
  }

  function Crowd(room: string, sender: string): seq<RoomEvent> {
    seq(SEEN_EVENT_LIMIT + 1, k requires 0 <= k => Filler(room, sender, k))
  }

  lemma CrowdIsDistinct(room: string, sender: string)
    ensures DistinctIds(Crowd(room, sender))
    ensures Distinct(EventIds(Crowd(room, sender)))
  {
    var log := Crowd(room, sender);
    forall i, j | 0 <= i < j < |log| ensures log[i].eventId != log[j].eventId {
      if log[i].eventId == log[j].eventId {
        DecimalInjective(i, j);
      }
    }
  }

  lemma {:induction false} AllNoted(seen: seq<string>, ids: seq<string>)
    requires Distinct(seen + ids)
    ensures Noted(seen, ids) == seen + ids
  {
    if ids == [] {
      assert seen + ids == seen;
    } else {
      var front, last := ids[..|ids| - 1], ids[|ids| - 1];
      assert seen + ids == seen + front + [last];
      forall i, j | 0 <= i < j < |seen + front| ensures (seen + front)[i] != (seen + front)[j] {
        assert (seen + ids)[i] != (seen + ids)[j];
      }
      AllNoted(seen, front);
      forall i | 0 <= i < |seen + front| ensures (seen + front)[i] != last {
        assert (seen + ids)[i] != (seen + ids)[|seen + ids| - 1];
      }
    }
  }

  lemma NoneSelected(events: seq<RoomEvent>, seen: seq<string>, me: string, rooms: seq<string>)
    requires forall e | e in events :: !Addressed(e, me, rooms)
    ensures Selected(events, seen, me, rooms) == []
  {
    var selected := Selected(events, seen, me, rooms);
    if selected != [] {
      SelectedIff(events, seen, me, rooms, selected[0]);
    }
  }

  /** A served world over the crowd, with a cursor and a seen set. */
  function Following(log: seq<RoomEvent>, cursor: SyncCursor, seen: seq<string>, round: Round): World {
    Started(log).(
      disk := Disk(Some(cursor), seen, map[], []),
      procs := map[0 := Serving({}, round, NoTurn, None)],
      baseline := Some(1))
  }

  lemma AdoptsFirst(c: Config, log: seq<RoomEvent>, now: int)
    requires Distinct(EventIds(log)) && |log| == SEEN_EVENT_LIMIT + 1
    ensures Enabled(c, Started(log), Baseline(0, 0, 1, now))
    ensures Next(c, Started(log), Baseline(0, 0, 1, now))
         == Following(log, SyncCursor(1, Some(now), NewestTs(log[0..1])), EventIds(log)[..1], Idle)
  {
    FirstCommitted(log, now);
    hide CommitBatch, NewestTs, EventIds;
  }

  lemma FirstCommitted(log: seq<RoomEvent>, now: int)
    requires Distinct(EventIds(log)) && |log| == SEEN_EVENT_LIMIT + 1
    ensures CommitBatch(Disk(None, [], map[], []), 1, EventIds(log[0..1]), NewestTs(log[0..1]), Some(now))
         == Disk(Some(SyncCursor(1, Some(now), NewestTs(log[0..1]))), EventIds(log)[..1], map[], [])
  {
    assert EventIds(log[0..1]) == EventIds(log)[..1];
    RememberFirst(EventIds(log));
    hide Remembered, NewestTs, EventIds;
  }

  lemma OffersNone(c: Config, log: seq<RoomEvent>, cursor: SyncCursor, seen: seq<string>)
    requires |log| == SEEN_EVENT_LIMIT + 1 && cursor.sinceToken == 1 && cursor.baselineAt.Some?
    requires forall e | e in log[1..|log|] :: !Addressed(e, c.me, c.rooms)
    ensures Enabled(c, Following(log, cursor, seen, Idle), Sync(0, 1, |log|))
    ensures Next(c, Following(log, cursor, seen, Idle), Sync(0, 1, |log|))
         == Following(log, cursor, seen, Holding(1, |log|, []))
  {
    NoneSelected(log[1..|log|], seen, c.me, c.rooms);
    hide Selected;
  }

  lemma CommitsRest(c: Config, log: seq<RoomEvent>, cursor: SyncCursor)
    requires Distinct(EventIds(log)) && |log| == SEEN_EVENT_LIMIT + 1
    ensures var w := Following(log, cursor, EventIds(log)[..1], Holding(1, |log|, []));
            && Enabled(c, w, Label.Commit(0))
            && Next(c, w, Label.Commit(0)) == Following(
                 log, Advanced(Some(cursor), |log|, NewestTs(log[1..|log|]), None), EventIds(log)[1..], Idle)
  {
    assert EventIds(log[1..|log|]) == EventIds(log)[1..];
    RememberRest(EventIds(log));
    hide Remembered, NewestTs;
  }

  /** One event is written off as history, then as many others as the seen set holds are
      committed. A homeserver that redelivers from the beginning now makes it a turn. */
  lemma BaselineEventComesBack(c: Config, room: string, sender: string, now: int)
    returns (ls: seq<Label>, before: World, after: World)
    requires room in c.rooms && sender != c.me
    ensures Reaches(c, ls, before) && Enabled(c, before, Sync(0, 0, |before.log|))
    ensures after == Next(c, before, Sync(0, 0, |before.log|))
    ensures before.baseline == Some(1) && |before.log| > 1 && Serves(after, 0) && after.procs[0].round.Holding?
    ensures TriggerFor(before.log[0]) in after.procs[0].round.todo
  {
    var log := Crowd(room, sender);
    CrowdIsDistinct(room, sender);
    ls := Starts(c, log);
    hide Reaches, NewestTs;
    CrowdOffers(c, room, sender);
    ls, before := CrowdCommitted(c, log, now, ls);
    after := Next(c, before, Sync(0, 0, |log|));
  }

  lemma CrowdOffers(c: Config, room: string, sender: string)
    requires room in c.rooms && sender != c.me
    ensures var log := Crowd(room, sender);
            && (forall e | e in log[1..|log|] :: !Addressed(e, c.me, c.rooms))
            && TriggerFor(log[0]) in Selected(log[0..|log|], EventIds(log)[1..], c.me, c.rooms)
  {
    var log := Crowd(room, sender);
    CrowdIsDistinct(room, sender);
    var ids := EventIds(log);
    assert log[0] in log[0..|log|] && Addressed(log[0], c.me, c.rooms);
    assert ids[0] !in ids[1..];
    SelectedIff(log[0..|log|], ids[1..], c.me, c.rooms, TriggerFor(log[0]));
  }

  lemma CrowdCommitted(c: Config, log: seq<RoomEvent>, now: int, start: seq<Label>) returns (ls: seq<Label>, w: World)
    requires Distinct(EventIds(log)) && |log| == SEEN_EVENT_LIMIT + 1 && Reaches(c, start, Started(log))
    requires forall e | e in log[1..|log|] :: !Addressed(e, c.me, c.rooms)
    ensures Reaches(c, ls, w)
    ensures exists cursor: SyncCursor :: cursor.baselineAt.Some? && cursor.sinceToken == |log|
              && w == Following(log, cursor, EventIds(log)[1..], Idle)
  {
    hide Reaches, Next, Enabled, NewestTs;
    AdoptsFirst(c, log, now);
    ls, w := Step(c, start, Started(log), Baseline(0, 0, 1, now));
    var cursor := w.disk.cursor.value;
    OffersNone(c, log, cursor, w.disk.seen);
    ls, w := Step(c, ls, w, Sync(0, 1, |log|));
    CommitsRest(c, log, cursor);
    ls, w := Step(c, ls, w, Label.Commit(0));
    var last := w.disk.cursor.value;
    assert w == Following(log, last, EventIds(log)[1..], Idle);
  }

  lemma RememberFirst(ids: seq<string>)
    requires Distinct(ids) && |ids| == SEEN_EVENT_LIMIT + 1
    ensures Remembered([], ids[..1]) == ids[..1]
  {
    AllNoted([], ids[..1]);
    assert [] + ids[..1] == ids[..1];
  }

  lemma RememberRest(ids: seq<string>)
    requires Distinct(ids) && |ids| == SEEN_EVENT_LIMIT + 1
    ensures Remembered(ids[..1], ids[1..]) == ids[1..]
  {
    assert ids[..1] + ids[1..] == ids;
    AllNoted(ids[..1], ids[1..]);
  }
}
