/** What every step of the room protocol keeps, and so every world of every run. */
module RoomInvariants {
  import opened Common
  import opened BridgeStore
  import opened InboxTurns
  import opened OutboxSends
  import opened Names
  import opened Protocol

  // --- One step -------------------------------------------------------------------------

  lemma LockStep(c: Config, w: World, l: Label)
    requires LockOk(w) && Enabled(c, w, l)
    ensures LockOk(Next(c, w, l))
  {
  }

  lemma TurnsStep(c: Config, w: World, l: Label)
    requires LockOk(w) && TurnsOk(w) && Enabled(c, w, l)
    ensures TurnsOk(Next(c, w, l))
  {
  }

  /** Rows are only ever appended or marked, so each keeps its name and its message. */
  lemma OutboxStep(c: Config, w: World, l: Label)
    requires Enabled(c, w, l) && NamesOk(c, w)
    ensures Grows(w.disk.outbox, Next(c, w, l).disk.outbox)
    ensures NamesOk(c, Next(c, w, l))
  {
    var before, after := w.disk.outbox, Next(c, w, l).disk.outbox;
    match l
    case Answer(p, lane, os, status, now) =>
      var t := w.procs[p].turn.trigger;
      var to := Destination(t.roomId, t.threadRoot, t.eventId);
      EnqueuedWellNamed(before, c.naming, to, os, lane, now);
      InsertAllGrows(before, RowsFor(c.naming, to, os, lane, now));
    case EnqueueAt(p, to, o, ordinal, now) =>
      var row := RowFor(c.naming, to, o, RUN_LANE, ordinal, now);
      assert RUN_LANE == LANES[2];
    case MarkSent(p) =>
      MarkingGrows(before, w.procs[p].reply.value.txnId, w.procs[p].reply.value.eventId, 0);
      MarkedWellNamed(before, after, c.naming.digest);
    case Refuse(p, row, now) =>
      MarkingGrows(before, before[row].txnId, "", now);
      MarkedWellNamed(before, after, c.naming.digest);
    case _ =>
      assert before == after;
  }

  lemma MarkedWellNamed(before: seq<OutboxRow>, after: seq<OutboxRow>, digest: string -> string)
    requires Grows(before, after) && |before| == |after| && WellNamed(before, digest)
    ensures WellNamed(after, digest)
  {
    forall r | r in after ensures r.lane in LANES && r.txnId == TxnId(digest, r.trigger, r.lane, r.ordinal) {
      var i :| 0 <= i < |after| && after[i] == r;
      assert Settles(before[i], after[i]) && before[i] in before;
    }
  }

  /** Appending unsettled rows disturbs no room. */
  lemma RoomsAfterAppend(outbox: seq<OutboxRow>, added: seq<OutboxRow>, timeline: seq<Post>)
    requires RoomsOk(outbox, timeline) && Fresh(added)
    ensures RoomsOk(outbox + added, timeline)
  {
    var after := outbox + added;
    forall i | 0 <= i < |timeline| ensures Backed(timeline[i], after) {
      var k :| 0 <= k < |outbox| && Shows(timeline[i], outbox[k]);
      assert Shows(timeline[i], after[k]);
    }
    forall i | |outbox| <= i < |after| ensures Pending(after[i]) {
      assert after[i] in added;
    }
  }

  lemma EnqueuedFresh(outbox: seq<OutboxRow>, rows: seq<OutboxRow>) returns (added: seq<OutboxRow>)
    ensures InsertAll(outbox, rows) == outbox + added && Fresh(added)
  {
    added := [];
    for i := 0 to |rows|
      invariant InsertAll(outbox, rows[..i]) == outbox + added && Fresh(added)
    {
      assert rows[..i + 1][..i] == rows[..i];
      if !Taken(outbox + added, rows[i]) {
        added := added + [rows[i].(sentEventId := None, refusedAt := None)];
      }
    }
    assert rows[..|rows|] == rows;
  }

  /** A first arrival adds one message, the text of the intent the request carries. */
  lemma RoomsAfterArrival(outbox: seq<OutboxRow>, timeline: seq<Post>, q: Request, eventId: string)
    requires RoomsOk(outbox, timeline) && Carried(q, outbox) && !Known(timeline, q.txnId)
    ensures RoomsOk(outbox, timeline + [Post(q.txnId, q.roomId, q.threadRoot, q.body, eventId)])
  {
    var row :| 0 <= row < |outbox| && q == RequestFor(outbox[row]);
    var post := Post(q.txnId, q.roomId, q.threadRoot, q.body, eventId);
    var after := timeline + [post];
    forall i | 0 <= i < |after| ensures Backed(after[i], outbox) {
      if i < |timeline| {
        assert Backed(timeline[i], outbox);
      } else {
        assert Shows(post, outbox[row]);
      }
    }
    forall i, j | 0 <= i < j < |after| ensures after[i].txnId != after[j].txnId {
      if j == |timeline| {
        assert timeline[i] in timeline;
      }
    }
    forall i | 0 <= i < |outbox| && outbox[i].sentEventId.Some?
      ensures Delivered(after, outbox[i].txnId, outbox[i].sentEventId.value)
    {
      DeliveredStays(timeline, after, outbox[i].txnId, outbox[i].sentEventId.value);
    }
  }

  /** Rows keep their messages, so requests under way go on carrying stored intents. */
  lemma WireStep(c: Config, w: World, l: Label)
    requires WireOk(w) && NamesOk(c, w) && Enabled(c, w, l)
    ensures WireOk(Next(c, w, l))
  {
    OutboxStep(c, w, l);
    var before, after := w.disk.outbox, Next(c, w, l).disk.outbox;
    forall q | q in Next(c, w, l).wire ensures Carried(q, after) {
      if q in w.wire {
        var i :| 0 <= i < |before| && q == RequestFor(before[i]);
        assert Settles(before[i], after[i]);
        assert q == RequestFor(after[i]);
      } else {
        assert q == RequestFor(after[l.row]);
      }
    }
  }

  lemma DeliveredStays(timeline: seq<Post>, after: seq<Post>, txnId: string, eventId: string)
    requires timeline <= after && Delivered(timeline, txnId, eventId)
    ensures Delivered(after, txnId, eventId)
  {
    var post :| post in timeline && post.txnId == txnId && post.eventId == eventId;
    assert post in after;
  }

  lemma RoomsAfterMark(outbox: seq<OutboxRow>, after: seq<OutboxRow>, timeline: seq<Post>)
    requires RoomsOk(outbox, timeline) && Grows(outbox, after) && |outbox| == |after|
    requires forall i | 0 <= i < |outbox| && outbox[i] != after[i] ::
               && (after[i].sentEventId.Some? ==> Delivered(timeline, after[i].txnId, after[i].sentEventId.value))
               && (after[i].refusedAt.Some? ==> after[i].sentEventId.None?)
    ensures RoomsOk(after, timeline)
  {
    forall i | 0 <= i < |timeline| ensures Backed(timeline[i], after) {
      var k :| 0 <= k < |outbox| && Shows(timeline[i], outbox[k]);
      assert Settles(outbox[k], after[k]);
      assert Shows(timeline[i], after[k]);
    }
  }

  /** Steps that touch neither the outbox nor the rooms. */
  lemma QuietStep(c: Config, w: World, l: Label)
    requires Enabled(c, w, l) && !l.Answer? && !l.EnqueueAt? && !l.Deliver? && !l.MarkSent? && !l.Refuse?
    ensures Next(c, w, l).disk.outbox == w.disk.outbox && Next(c, w, l).timeline == w.timeline
  {
  }

  lemma RoomsAfterAnswer(c: Config, w: World, l: Label)
    requires RoomsOk(w.disk.outbox, w.timeline) && Enabled(c, w, l) && (l.Answer? || l.EnqueueAt?)
    ensures RoomsOk(Next(c, w, l).disk.outbox, Next(c, w, l).timeline)
  {
    match l
    case Answer(p, lane, os, status, now) =>
      var t := w.procs[p].turn.trigger;
      var to := Destination(t.roomId, t.threadRoot, t.eventId);
      var added := EnqueuedFresh(w.disk.outbox, RowsFor(c.naming, to, os, lane, now));
      RoomsAfterAppend(w.disk.outbox, added, w.timeline);
    case EnqueueAt(p, to, o, ordinal, now) =>
      RoomsAfterAppend(w.disk.outbox, [RowFor(c.naming, to, o, RUN_LANE, ordinal, now)], w.timeline);
  }

  lemma RoomsAfterMarking(c: Config, w: World, l: Label)
    requires RoomsOk(w.disk.outbox, w.timeline) && RepliesOk(w) && Enabled(c, w, l) && (l.MarkSent? || l.Refuse?)
    ensures RoomsOk(Next(c, w, l).disk.outbox, Next(c, w, l).timeline)
  {
    var outbox, after := w.disk.outbox, Next(c, w, l).disk.outbox;
    if l.MarkSent? {
      MarkingGrows(outbox, w.procs[l.p].reply.value.txnId, w.procs[l.p].reply.value.eventId, 0);
    } else {
      MarkingGrows(outbox, outbox[l.row].txnId, "", l.now);
    }
    RoomsAfterMark(outbox, after, w.timeline);
  }

  lemma RoomsStep(c: Config, w: World, l: Label)
    requires RoomsOk(w.disk.outbox, w.timeline) && WireOk(w) && RepliesOk(w) && Enabled(c, w, l)
    ensures RoomsOk(Next(c, w, l).disk.outbox, Next(c, w, l).timeline)
  {
    if l.Answer? || l.EnqueueAt? {
      RoomsAfterAnswer(c, w, l);
    } else if l.MarkSent? || l.Refuse? {
      RoomsAfterMarking(c, w, l);
    } else if l.Deliver? {
      if !Known(w.timeline, l.q.txnId) {
        RoomsAfterArrival(w.disk.outbox, w.timeline, l.q, l.eventId);
      }
    } else {
      QuietStep(c, w, l);
    }
  }

  lemma RepliesStep(c: Config, w: World, l: Label)
    requires RepliesOk(w) && Enabled(c, w, l)
    ensures RepliesOk(Next(c, w, l))
  {
    var w' := Next(c, w, l);
    assert w.timeline <= w'.timeline;
    forall p | p in w'.procs && w'.procs[p].Serving? && w'.procs[p].reply.Some?
      ensures Delivered(w'.timeline, w'.procs[p].reply.value.txnId, w'.procs[p].reply.value.eventId)
    {
      if p in w.procs && w.procs[p].Serving? && w.procs[p].reply == w'.procs[p].reply {
        DeliveredStays(w.timeline, w'.timeline, w.procs[p].reply.value.txnId, w.procs[p].reply.value.eventId);
      }
    }
  }

  // --- Events behind the cursor ------------------------------------------------------------

  /** A turn for this event ended for good, or the room was told it ran out of time. */
  ghost predicate Handled(d: Disk, e: RoomEvent) {
    || (KeyOf(TriggerFor(e)) in d.turns && Terminal(d.turns[KeyOf(TriggerFor(e))]))
    || Held(d.outbox, e.eventId, NOTE_LANE, 0)
  }

  ghost predicate SeenOk(w: World) {
    && DistinctIds(w.log)
    && (w.disk.cursor.None? ==> w.disk.seen == [] && w.baseline.None?)
    && (w.disk.cursor.Some? ==>
          && w.disk.cursor.value.baselineAt.Some? && w.baseline.Some?
          && w.baseline.value <= w.disk.cursor.value.sinceToken <= |w.log|
          && forall id | id in w.disk.seen :: SeenBefore(w.log, id, w.disk.cursor.value.sinceToken))
  }

  ghost predicate SeenBefore(log: seq<RoomEvent>, id: string, position: nat) {
    exists i :: 0 <= i < |log| && i < position && log[i].eventId == id
  }

  /** Every event addressed to this worker between the baseline and the cursor is handled. */
  ghost predicate NothingLost(c: Config, w: World) {
    w.disk.cursor.Some? && w.baseline.Some? ==>
      forall i | w.baseline.value <= i < w.disk.cursor.value.sinceToken && i < |w.log|
                 && Addressed(w.log[i], c.me, c.rooms) ::
        Handled(w.disk, w.log[i])
  }

  /** An event of the batch in hand is handled, waiting in the round, or being answered. */
  ghost predicate Accounted(w: World, todo: seq<Trigger>, turn: Turn, e: RoomEvent) {
    || Handled(w.disk, e)
    || TriggerFor(e) in todo
    || (turn != NoTurn && turn.trigger == TriggerFor(e))
  }

  ghost predicate RoundOk(c: Config, w: World, proc: Proc)
    requires proc.Serving?
  {
    proc.round.Holding? ==>
      && !NeedsBaseline(w.disk.cursor)
      && proc.round.from <= w.disk.cursor.value.sinceToken <= proc.round.upto <= |w.log|
      && (forall i | w.disk.cursor.value.sinceToken <= i < proc.round.upto && Addressed(w.log[i], c.me, c.rooms) ::
            Accounted(w, proc.round.todo, proc.turn, w.log[i]))
      && (proc.turn.Answered? && proc.turn.status == "timeout" ==>
            Held(w.disk.outbox, proc.turn.trigger.eventId, NOTE_LANE, 0))
  }

  ghost predicate RoundsOk(c: Config, w: World) {
    forall p | p in w.procs && w.procs[p].Serving? :: RoundOk(c, w, w.procs[p])
  }

  lemma SeenStep(c: Config, w: World, l: Label)
    requires SeenOk(w) && Enabled(c, w, l)
    requires forall p | p in w.procs && w.procs[p].Serving? :: RoundOk(c, w, w.procs[p])
    ensures SeenOk(Next(c, w, l))
  {
    var w' := Next(c, w, l);
    match l
    case Arrive(e) =>
      forall i, j | 0 <= i < j < |w'.log| ensures w'.log[i].eventId != w'.log[j].eventId {
        if j == |w.log| {
          assert w.log[i] in w.log;
        }
      }
      if w.disk.cursor.Some? {
        forall id | id in w.disk.seen ensures SeenBefore(w'.log, id, w.disk.cursor.value.sinceToken) {
          assert SeenBefore(w.log, id, w.disk.cursor.value.sinceToken);
          var i :| 0 <= i < |w.log| && i < w.disk.cursor.value.sinceToken && w.log[i].eventId == id;
          assert w'.log[i].eventId == id;
        }
      }
    case Baseline(p, from, upto, now) =>
      CommittedSeen(w, from, upto);
    case Commit(p) =>
      assert RoundOk(c, w, w.procs[p]);
      CommittedSeen(w, w.procs[p].round.from, w.procs[p].round.upto);
    case _ =>
  }

  /** What a commit remembers lies before the position it commits. */
  lemma CommittedSeen(w: World, from: nat, upto: nat)
    requires SeenOk(w) && from <= upto <= |w.log|
    requires w.disk.cursor.Some? ==> w.disk.cursor.value.sinceToken <= upto
    ensures forall id | id in Remembered(w.disk.seen, EventIds(w.log[from..upto])) :: SeenBefore(w.log, id, upto)
  {
    var ids := EventIds(w.log[from..upto]);
    forall id | id in Remembered(w.disk.seen, ids) ensures SeenBefore(w.log, id, upto) {
      RememberedFrom(w.disk.seen, ids, id);
      if id in ids {
        var k :| 0 <= k < |ids| && ids[k] == id;
        assert w.log[from + k].eventId == id;
      } else {
        assert SeenBefore(w.log, id, w.disk.cursor.value.sinceToken);
        var i :| 0 <= i < |w.log| && i < w.disk.cursor.value.sinceToken && w.log[i].eventId == id;
        assert w.log[i].eventId == id && i < upto;
      }
    }
  }

  lemma {:induction false} NotedFrom(seen: seq<string>, ids: seq<string>, id: string)
    requires id in Noted(seen, ids)
    ensures id in seen || id in ids
  {
    if ids != [] {
      var front := ids[..|ids| - 1];
      assert ids == front + [ids[|ids| - 1]];
      if id in Noted(seen, front) {
        NotedFrom(seen, front, id);
      }
    }
  }

  lemma RememberedFrom(seen: seq<string>, ids: seq<string>, id: string)
    requires id in Remembered(seen, ids)
    ensures id in seen || id in ids
  {
    if id in Noted(seen, ids) {
      NotedFrom(seen, ids, id);
    }
  }

  /** Neither a final outcome nor a note in the outbox is ever taken back. */
  lemma HandledStays(c: Config, w: World, l: Label, e: RoomEvent)
    requires TurnsOk(w) && NamesOk(c, w) && Enabled(c, w, l) && Handled(w.disk, e)
    ensures Handled(Next(c, w, l).disk, e)
  {
    var w', key := Next(c, w, l), KeyOf(TriggerFor(e));
    if key in w.disk.turns && Terminal(w.disk.turns[key]) {
      TerminalStays(c, w, l, key);
    } else {
      OutboxStep(c, w, l);
      HeldStays(w.disk.outbox, w'.disk.outbox, e.eventId, NOTE_LANE, 0);
    }
  }

  lemma HeldStays(before: seq<OutboxRow>, after: seq<OutboxRow>, trigger: string, lane: string, ordinal: nat)
    requires Grows(before, after) && Held(before, trigger, lane, ordinal)
    ensures Held(after, trigger, lane, ordinal)
  {
    var r :| r in before && r.trigger == trigger && r.lane == lane && r.ordinal == ordinal;
    var i :| 0 <= i < |before| && before[i] == r;
    assert Settles(before[i], after[i]) && after[i] in after;
  }

  lemma TerminalStays(c: Config, w: World, l: Label, key: TurnKey)
    requires TurnsOk(w) && Enabled(c, w, l)
    requires key in w.disk.turns && Terminal(w.disk.turns[key])
    ensures key in Next(c, w, l).disk.turns && Next(c, w, l).disk.turns[key] == w.disk.turns[key]
  {
    if l.Settle? || l.Abort? || l.Cancel? || l.Fail? || l.Unstored? {
      var live := KeyOf(w.procs[l.p].turn.trigger);
      assert live in w.procs[l.p].active;
    }
  }

  lemma NothingLostStep(c: Config, w: World, l: Label)
    requires TurnsOk(w) && NamesOk(c, w) && SeenOk(w) && RoundsOk(c, w) && NothingLost(c, w)
    requires Enabled(c, w, l)
    ensures NothingLost(c, Next(c, w, l))
  {
    var w' := Next(c, w, l);
    if w'.disk.cursor.Some? && w'.baseline.Some? {
      forall i | w'.baseline.value <= i < w'.disk.cursor.value.sinceToken && i < |w'.log|
                 && Addressed(w'.log[i], c.me, c.rooms)
        ensures Handled(w'.disk, w'.log[i])
      {
        if l.Commit? {
          assert RoundOk(c, w, w.procs[l.p]);
          if w.disk.cursor.value.sinceToken <= i {
            assert Accounted(w, [], NoTurn, w.log[i]);
          }
        }
        assert Handled(w.disk, w.log[i]);
        HandledStays(c, w, l, w.log[i]);
      }
    }
  }

  /** The selection of a batch that starts at or before the cursor covers every addressed
      event from the cursor on: nothing there can be in the seen set. */
  lemma SyncSelectsAll(c: Config, w: World, from: nat, upto: nat, i: nat)
    requires SeenOk(w) && w.disk.cursor.Some?
    requires from <= w.disk.cursor.value.sinceToken <= i < upto <= |w.log|
    requires Addressed(w.log[i], c.me, c.rooms)
    ensures TriggerFor(w.log[i]) in Selected(w.log[from..upto], w.disk.seen, c.me, c.rooms)
  {
    var events, e := w.log[from..upto], w.log[i];
    assert events[i - from] == e;
    assert e.eventId !in w.disk.seen;
    SelectedIff(events, w.disk.seen, c.me, c.rooms, TriggerFor(e));
  }

  /** A claim in a served round is refused only because the turn is already over. */
  lemma ClaimRefusedMeansHandled(w: World, p: Pid, e: RoomEvent)
    requires TurnsOk(w) && BetweenTurns(w, p) && w.procs[p].round.todo != []
    requires TriggerFor(e) == w.procs[p].round.todo[0]
    requires !Grants(Decide(w.disk.turns, w.procs[p].active, KeyOf(TriggerFor(e))))
    ensures Handled(w.disk, e)
  {
    assert w.procs[p].active == {};
  }

  lemma AccountedStays(c: Config, w: World, l: Label, e: RoomEvent)
    requires CollisionFree(c.naming.digest)
    requires LockOk(w) && TurnsOk(w) && NamesOk(c, w) && RoundsOk(c, w) && Enabled(c, w, l)
    requires l.Claim? || l.Answer? || l.Settle?
    requires Accounted(w, w.procs[l.p].round.todo, w.procs[l.p].turn, e)
    ensures var w' := Next(c, w, l);
            Accounted(w', w'.procs[l.p].round.todo, w'.procs[l.p].turn, e)
  {
    var w', p, t := Next(c, w, l), l.p, TriggerFor(e);
    if Handled(w.disk, e) {
      HandledStays(c, w, l, e);
    } else if l.Claim? {
      var todo := w.procs[p].round.todo;
      if t == todo[0] {
        if !Grants(Decide(w.disk.turns, w.procs[p].active, KeyOf(t))) {
          ClaimRefusedMeansHandled(w, p, e);
        }
      } else {
        assert todo == [todo[0]] + todo[1..];
      }
    } else if l.Settle? && w.procs[p].turn.trigger == t {
      assert RoundOk(c, w, w.procs[p]);
      if w.procs[p].turn.status == "timeout" {
        OutboxStep(c, w, l);
      }
    }
  }

  lemma RoundsStep(c: Config, w: World, l: Label)
    requires CollisionFree(c.naming.digest)
    requires LockOk(w) && TurnsOk(w) && NamesOk(c, w) && SeenOk(w) && RoundsOk(c, w) && Enabled(c, w, l)
    ensures RoundsOk(c, Next(c, w, l))
  {
    var w' := Next(c, w, l);
    forall p | p in w'.procs && w'.procs[p].Serving? ensures RoundOk(c, w', w'.procs[p]) {
      if w'.procs[p].round.Holding? {
        RoundStep(c, w, l, p);
      }
    }
  }

  lemma RoundStep(c: Config, w: World, l: Label, p: Pid)
    requires CollisionFree(c.naming.digest)
    requires LockOk(w) && TurnsOk(w) && NamesOk(c, w) && SeenOk(w) && RoundsOk(c, w) && Enabled(c, w, l)
    requires p in Next(c, w, l).procs && Next(c, w, l).procs[p].Serving? && Next(c, w, l).procs[p].round.Holding?
    ensures RoundOk(c, Next(c, w, l), Next(c, w, l).procs[p])
  {
    if l.Sync? {
      RoundAfterSync(c, w, l, p);
    } else {
      RoundKept(c, w, l, p);
    }
  }

  lemma RoundAfterSync(c: Config, w: World, l: Label, p: Pid)
    requires LockOk(w) && SeenOk(w) && RoundsOk(c, w) && Enabled(c, w, l) && l.Sync?
    requires p in Next(c, w, l).procs && Next(c, w, l).procs[p].Serving? && Next(c, w, l).procs[p].round.Holding?
    ensures RoundOk(c, Next(c, w, l), Next(c, w, l).procs[p])
  {
    var w' := Next(c, w, l);
    var proc' := w'.procs[p];
    forall i | w.disk.cursor.value.sinceToken <= i < proc'.round.upto && Addressed(w.log[i], c.me, c.rooms)
      ensures Accounted(w', proc'.round.todo, proc'.turn, w.log[i])
    {
      SyncSelectsAll(c, w, l.from, l.upto, i);
    }
  }

  lemma RoundKept(c: Config, w: World, l: Label, p: Pid)
    requires CollisionFree(c.naming.digest)
    requires LockOk(w) && TurnsOk(w) && NamesOk(c, w) && RoundsOk(c, w) && Enabled(c, w, l) && !l.Sync?
    requires p in Next(c, w, l).procs && Next(c, w, l).procs[p].Serving? && Next(c, w, l).procs[p].round.Holding?
    ensures RoundOk(c, Next(c, w, l), Next(c, w, l).procs[p])
  {
    var w' := Next(c, w, l);
    var proc' := w'.procs[p];
    assert RoundOk(c, w, w.procs[p]);
    forall i | w'.disk.cursor.value.sinceToken <= i < proc'.round.upto && Addressed(w'.log[i], c.me, c.rooms)
      ensures Accounted(w', proc'.round.todo, proc'.turn, w'.log[i])
    {
      assert Accounted(w, w.procs[p].round.todo, w.procs[p].turn, w.log[i]);
      AccountedNext(c, w, l, p, w.log[i]);
    }
    NoteStays(c, w, l, p);
  }

  lemma AccountedNext(c: Config, w: World, l: Label, p: Pid, e: RoomEvent)
    requires CollisionFree(c.naming.digest)
    requires LockOk(w) && TurnsOk(w) && NamesOk(c, w) && RoundsOk(c, w) && Enabled(c, w, l) && !l.Sync?
    requires p in Next(c, w, l).procs && Next(c, w, l).procs[p].Serving? && Next(c, w, l).procs[p].round.Holding?
    requires Serves(w, p) && w.procs[p].round.Holding?
    requires Accounted(w, w.procs[p].round.todo, w.procs[p].turn, e)
    ensures Accounted(Next(c, w, l), Next(c, w, l).procs[p].round.todo, Next(c, w, l).procs[p].turn, e)
  {
    if l.Claim? || l.Answer? || l.Settle? {
      AccountedStays(c, w, l, e);
    } else if Handled(w.disk, e) {
      HandledStays(c, w, l, e);
    }
  }

  lemma NoteStays(c: Config, w: World, l: Label, p: Pid)
    requires CollisionFree(c.naming.digest)
    requires LockOk(w) && TurnsOk(w) && NamesOk(c, w) && RoundsOk(c, w) && Enabled(c, w, l)
    requires p in Next(c, w, l).procs && Next(c, w, l).procs[p].Serving? && Next(c, w, l).procs[p].round.Holding?
    ensures var w' := Next(c, w, l);
            w'.procs[p].turn.Answered? && w'.procs[p].turn.status == "timeout" ==>
              Held(w'.disk.outbox, w'.procs[p].turn.trigger.eventId, NOTE_LANE, 0)
  {
    var w' := Next(c, w, l);
    if w'.procs[p].turn.Answered? && w'.procs[p].turn.status == "timeout" {
      var t := w'.procs[p].turn.trigger;
      if l.Answer? {
        EnqueuedHolds(w.disk.outbox, c.naming, Destination(t.roomId, t.threadRoot, t.eventId), l.os, l.lane, l.now, 0);
      } else {
        assert RoundOk(c, w, w.procs[p]);
        OutboxStep(c, w, l);
        HeldStays(w.disk.outbox, w'.disk.outbox, t.eventId, NOTE_LANE, 0);
      }
    }
  }

  // --- Where turns come from ------------------------------------------------------------------

  lemma AskedForStays(c: Config, log: seq<RoomEvent>, longer: seq<RoomEvent>, t: Trigger)
    requires log <= longer && AskedFor(c, log, t)
    ensures AskedFor(c, longer, t)
  {
    var i :| 0 <= i < |log| && t == TriggerFor(log[i]) && Addressed(log[i], c.me, c.rooms);
    assert longer[i] == log[i];
  }

  lemma SelectedAskedFor(c: Config, w: World, from: nat, upto: nat)
    requires from <= upto <= |w.log|
    ensures forall t | t in Selected(w.log[from..upto], w.disk.seen, c.me, c.rooms) :: AskedFor(c, w.log, t)
  {
    var events := w.log[from..upto];
    forall t | t in Selected(events, w.disk.seen, c.me, c.rooms) ensures AskedFor(c, w.log, t) {
      SelectedIff(events, w.disk.seen, c.me, c.rooms, t);
      var e :| e in events && t == TriggerFor(e) && Addressed(e, c.me, c.rooms);
      var k :| 0 <= k < |events| && events[k] == e;
      assert w.log[from + k] == e;
    }
  }

  lemma TriggersStep(c: Config, w: World, l: Label)
    requires TriggersOk(c, w) && Enabled(c, w, l)
    ensures TriggersOk(c, Next(c, w, l))
  {
    var w' := Next(c, w, l);
    assert w.log <= w'.log;
    forall t | AskedFor(c, w.log, t) ensures AskedFor(c, w'.log, t) {
      AskedForStays(c, w.log, w'.log, t);
    }
    if l.Sync? {
      SelectedAskedFor(c, w, l.from, l.upto);
    }
  }

  // --- Every reachable world ------------------------------------------------------------------

  ghost predicate Inv(c: Config, w: World) {
    && LockOk(w) && TurnsOk(w) && NamesOk(c, w)
    && RoomsOk(w.disk.outbox, w.timeline) && WireOk(w) && RepliesOk(w)
    && SeenOk(w) && RoundsOk(c, w) && NothingLost(c, w) && TriggersOk(c, w)
  }

  lemma InvStep(c: Config, w: World, l: Label)
    requires CollisionFree(c.naming.digest) && Inv(c, w) && Enabled(c, w, l)
    ensures Inv(c, Next(c, w, l))
  {
    LockStep(c, w, l);
    TurnsStep(c, w, l);
    OutboxStep(c, w, l);
    RoomsStep(c, w, l);
    WireStep(c, w, l);
    RepliesStep(c, w, l);
    SeenStep(c, w, l);
    RoundsStep(c, w, l);
    NothingLostStep(c, w, l);
    TriggersStep(c, w, l);
  }

  /** Every world of every run satisfies every invariant. */
  lemma {:induction false} RunsAreSafe(c: Config, ws: seq<World>, ls: seq<Label>, i: nat)
    requires CollisionFree(c.naming.digest) && IsRun(c, ws, ls) && i < |ws|
    ensures Inv(c, ws[i])
  {
    if i > 0 {
      RunsAreSafe(c, ws, ls, i - 1);
      InvStep(c, ws[i - 1], ls[i - 1]);
      assert ws[i - 1 + 1] == Next(c, ws[i - 1], ls[i - 1]);
    }
  }
}
