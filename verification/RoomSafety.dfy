/** What holds over whole runs of the room protocol: one process at a time, one message per
    intent, and no addressed event lost behind the cursor. */
module RoomSafety {
  import opened Common
  import opened BridgeStore
  import opened InboxTurns
  import opened OutboxSends
  import opened Names
  import opened Protocol
  import opened RoomInvariants

  // --- One process at a time --------------------------------------------------------------------

  /** The steps no process takes: those of the rooms and of the network. */
  predicate OfTheWorld(l: Label) {
    l.Arrive? || l.Deliver? || l.Lose?
  }

  /** The disk only ever changes by the hand of the one process that holds the lock. */
  lemma OnlyTheHolderWrites(c: Config, ws: seq<World>, ls: seq<Label>, i: nat)
    requires CollisionFree(c.naming.digest) && IsRun(c, ws, ls) && i < |ls|
    requires ws[i + 1].disk != ws[i].disk
    ensures !OfTheWorld(ls[i]) && ws[i].lock == Some(ls[i].p) && ws[i + 1].lock == Some(ls[i].p)
    ensures ws[i].procs.Keys == {ls[i].p} && ws[i].procs[ls[i].p].Serving?
  {
    RunsAreSafe(c, ws, ls, i);
    assert ws[i + 1] == Next(c, ws[i], ls[i]);
  }

  /** No turn is live in two places, and at most one turn is live at all. */
  lemma OneLiveTurn(c: Config, ws: seq<World>, ls: seq<Label>, i: nat, p: Pid, q: Pid, k: TurnKey, k': TurnKey)
    requires CollisionFree(c.naming.digest) && IsRun(c, ws, ls) && i < |ws|
    requires p in ws[i].procs && ws[i].procs[p].Serving? && k in ws[i].procs[p].active
    requires q in ws[i].procs && ws[i].procs[q].Serving? && k' in ws[i].procs[q].active
    ensures p == q && k == k'
    ensures k in ws[i].disk.turns && ws[i].disk.turns[k].InFlight?
  {
    RunsAreSafe(c, ws, ls, i);
    assert ws[i].procs.Keys == {p};
  }

  /** What a claim in a run means: it is never refused as already running, it is refused
      exactly when the turn is over for good, and when it takes over a turn left in flight
      no live process is running that turn. */
  lemma ClaimsAreHonest(c: Config, ws: seq<World>, ls: seq<Label>, i: nat)
    requires CollisionFree(c.naming.digest) && IsRun(c, ws, ls) && i < |ls| && ls[i].Claim?
    ensures var proc := ws[i].procs[ls[i].p];
            var key := KeyOf(proc.round.todo[0]);
            var reason := Decide(ws[i].disk.turns, proc.active, key);
            && reason != Active
            && (reason == Settled <==> key in ws[i].disk.turns && Terminal(ws[i].disk.turns[key]))
            && (reason == Reauthorized ==>
                  forall q | q in ws[i].procs && ws[i].procs[q].Serving? :: key !in ws[i].procs[q].active)
  {
    RunsAreSafe(c, ws, ls, i);
    assert ws[i].procs.Keys == {ls[i].p};
    assert ws[i].procs[ls[i].p].active == {};
  }

  /** A finished turn keeps its outcome for the rest of the run and is never granted again. */
  lemma {:induction false} FinishedForever(c: Config, ws: seq<World>, ls: seq<Label>, i: nat, j: nat, key: TurnKey)
    requires CollisionFree(c.naming.digest) && IsRun(c, ws, ls) && i <= j < |ws|
    requires key in ws[i].disk.turns && Terminal(ws[i].disk.turns[key])
    ensures key in ws[j].disk.turns && ws[j].disk.turns[key] == ws[i].disk.turns[key]
    ensures j < |ls| && ls[j].Claim? && KeyOf(ws[j].procs[ls[j].p].round.todo[0]) == key ==>
              !Grants(Decide(ws[j].disk.turns, ws[j].procs[ls[j].p].active, key))
  {
    if i < j {
      FinishedForever(c, ws, ls, i, j - 1, key);
      RunsAreSafe(c, ws, ls, j - 1);
      TerminalStays(c, ws[j - 1], ls[j - 1], key);
      assert ws[j - 1 + 1] == Next(c, ws[j - 1], ls[j - 1]);
    }
    if j < |ls| {
      assert Enabled(c, ws[j], ls[j]);
    }
  }

  // --- One message per name ---------------------------------------------------------------------

  lemma OutboxNext(c: Config, ws: seq<World>, ls: seq<Label>, k: nat)
    requires CollisionFree(c.naming.digest) && IsRun(c, ws, ls) && k < |ls|
    ensures Grows(ws[k].disk.outbox, ws[k + 1].disk.outbox)
  {
    RunsAreSafe(c, ws, ls, k);
    hide Next, Enabled, Grows;
    OutboxStep(c, ws[k], ls[k]);
    assert ws[k + 1] == Next(c, ws[k], ls[k]);
  }

  lemma {:induction false} OutboxHistory(c: Config, ws: seq<World>, ls: seq<Label>, i: nat, j: nat)
    requires CollisionFree(c.naming.digest) && IsRun(c, ws, ls) && i <= j < |ws|
    ensures Grows(ws[i].disk.outbox, ws[j].disk.outbox)
  {
    hide Next, Enabled, Grows, CollisionFree;
    if i < j {
      OutboxHistory(c, ws, ls, i, j - 1);
      OutboxNext(c, ws, ls, j - 1);
      hide IsRun;
      GrowsTransitive(ws[i].disk.outbox, ws[j - 1].disk.outbox, ws[j].disk.outbox);
    } else {
      GrowsFromItself(ws[i].disk.outbox);
    }
  }

  lemma GrowsFromItself(outbox: seq<OutboxRow>)
    ensures Grows(outbox, outbox)
  {
  }

  lemma TimelineStep(c: Config, w: World, l: Label)
    requires Enabled(c, w, l)
    ensures w.timeline <= Next(c, w, l).timeline
  {
  }

  lemma {:induction false} TimelineGrows(c: Config, ws: seq<World>, ls: seq<Label>, i: nat, j: nat)
    requires IsRun(c, ws, ls) && i <= j < |ws|
    ensures ws[i].timeline <= ws[j].timeline
  {
    if i < j {
      hide Next, Enabled;
      TimelineGrows(c, ws, ls, i, j - 1);
      TimelineStep(c, ws[j - 1], ls[j - 1]);
      assert ws[j - 1 + 1] == Next(c, ws[j - 1], ls[j - 1]);
    }
  }

  /** Intents and messages correspond: whenever two intents were stored and whenever two
      messages showed them, the messages are one and the same exactly when the intents sit
      at one (trigger, lane, ordinal). Nothing is said twice and nothing swallows another. */
  lemma PostedAtMostOnce(c: Config, ws: seq<World>, ls: seq<Label>,
                         i: nat, r: OutboxRow, j: nat, s: OutboxRow, m: nat, p: Post, n: nat, q: Post)
    requires CollisionFree(c.naming.digest) && IsRun(c, ws, ls)
    requires i < |ws| && j < |ws| && r in ws[i].disk.outbox && s in ws[j].disk.outbox
    requires m < |ws| && n < |ws| && p in ws[m].timeline && q in ws[n].timeline
    requires Shows(p, r) && Shows(q, s)
    ensures p == q <==> SamePosition(r, s)
  {
    var last := |ws| - 1;
    RunsAreSafe(c, ws, ls, i);
    RunsAreSafe(c, ws, ls, j);
    RunsAreSafe(c, ws, ls, last);
    TimelineGrows(c, ws, ls, m, last);
    TimelineGrows(c, ws, ls, n, last);
    TxnIdInjective(c.naming.digest, r.trigger, r.lane, r.ordinal, s.trigger, s.lane, s.ordinal);
    OneTransaction(ws[last].disk.outbox, ws[last].timeline, p, q);
  }

  lemma OneTransaction(outbox: seq<OutboxRow>, timeline: seq<Post>, p: Post, q: Post)
    requires RoomsOk(outbox, timeline) && p in timeline && q in timeline
    ensures p.txnId == q.txnId ==> p == q
  {
    var a :| 0 <= a < |timeline| && timeline[a] == p;
    var b :| 0 <= b < |timeline| && timeline[b] == q;
    assert a < b || b < a || a == b;
  }

  /** It carries what was stored there first: a row on disk at any moment of the run is
      what the room shows under that name at every later moment, and it goes to the room
      and thread that row named. */
  lemma PostedAsFirstStored(c: Config, ws: seq<World>, ls: seq<Label>, i: nat, j: nat, row: nat, post: Post)
    requires CollisionFree(c.naming.digest) && IsRun(c, ws, ls) && i <= j < |ws|
    requires row < |ws[i].disk.outbox| && post in ws[j].timeline
    requires var r := ws[i].disk.outbox[row];
             post.txnId == TxnId(c.naming.digest, r.trigger, r.lane, r.ordinal)
    ensures Shows(post, ws[i].disk.outbox[row])
  {
    RunsAreSafe(c, ws, ls, i);
    RunsAreSafe(c, ws, ls, j);
    OutboxHistory(c, ws, ls, i, j);
    var earlier, now := ws[i].disk.outbox, ws[j].disk.outbox;
    assert earlier[row] in earlier && Settles(earlier[row], now[row]);
    ShownByItsRow(now, ws[j].timeline, post, row);
  }

  /** Where the answer to the turn at hand goes. */
  function AnswerTo(w: World, p: Pid): Destination
    requires InTurn(w, p)
  {
    var t := w.procs[p].turn.trigger;
    Destination(t.roomId, t.threadRoot, t.eventId)
  }

  /** What a room shows under the name of an answer's message is that message, in the turn's
      own room and thread, if its place was free when the answer was given. */
  lemma AnswerIsPostedAsGiven(c: Config, ws: seq<World>, ls: seq<Label>, i: nat, k: nat, j: nat, post: Post)
    requires CollisionFree(c.naming.digest) && IsRun(c, ws, ls) && i < j < |ws| && ls[i].Answer? && k < |ls[i].os|
    requires !Held(ws[i].disk.outbox, ws[i].procs[ls[i].p].turn.trigger.eventId, ls[i].lane, k)
    requires post in ws[j].timeline
    requires post.txnId == TxnId(c.naming.digest, ws[i].procs[ls[i].p].turn.trigger.eventId, ls[i].lane, k)
    ensures var t := ws[i].procs[ls[i].p].turn.trigger;
            post.body == ls[i].os[k].body && post.roomId == t.roomId && post.threadRoot == t.threadRoot
  {
    var w, l := ws[i], ls[i];
    RunsAreSafe(c, ws, ls, i);
    assert Enabled(c, w, l) && ws[i + 1] == Next(c, w, l);
    var to := AnswerTo(w, l.p);
    EnqueuedSays(w.disk.outbox, c.naming, to, l.os, l.lane, l.now, k);
    hide Enqueued, IsRun;
    var r :| r in ws[i + 1].disk.outbox && StoredAs(r, c.naming, to, l.os[k], l.lane, k, l.now);
    var row :| 0 <= row < |ws[i + 1].disk.outbox| && ws[i + 1].disk.outbox[row] == r;
    PostedAsFirstStored(c, ws, ls, i + 1, j, row, post);
  }

  /** The same of a message written into the governed-run lane at a free place. */
  lemma RunMessageIsPostedAsGiven(c: Config, ws: seq<World>, ls: seq<Label>, i: nat, j: nat, post: Post)
    requires CollisionFree(c.naming.digest) && IsRun(c, ws, ls) && i < j < |ws| && ls[i].EnqueueAt?
    requires !Held(ws[i].disk.outbox, ls[i].to.trigger, RUN_LANE, ls[i].ordinal)
    requires post in ws[j].timeline
    requires post.txnId == TxnId(c.naming.digest, ls[i].to.trigger, RUN_LANE, ls[i].ordinal)
    ensures post.body == ls[i].o.body && post.roomId == ls[i].to.roomId && post.threadRoot == ls[i].to.threadRoot
  {
    var w, l := ws[i], ls[i];
    RunsAreSafe(c, ws, ls, i);
    assert Enabled(c, w, l) && ws[i + 1] == Next(c, w, l);
    var row := RowFor(c.naming, l.to, l.o, RUN_LANE, l.ordinal, l.now);
    assert RUN_LANE == LANES[2] && WellNamed([row], c.naming.digest);
    TakenIsHeld(w.disk.outbox, row, c.naming.digest);
    hide IsRun;
    PostedAsFirstStored(c, ws, ls, i + 1, j, |w.disk.outbox|, post);
  }

  /** The step gave the room this row: as a message of the answer to the turn at hand, or as
      a message of a governed run. */
  ghost predicate GivenBy(w: World, l: Label, r: OutboxRow) {
    || (l.Answer? && InTurn(w, l.p) && r.lane == l.lane && r.ordinal < |l.os|
        && Carries(r, AnswerTo(w, l.p), l.os[r.ordinal]))
    || (l.EnqueueAt? && r.lane == RUN_LANE && r.ordinal == l.ordinal && Carries(r, l.to, l.o))
  }

  /** A row is new only in a step that gives it. */
  lemma NewRowIsGiven(c: Config, w: World, l: Label, row: nat)
    requires NamesOk(c, w) && Enabled(c, w, l)
    requires |w.disk.outbox| <= row < |Next(c, w, l).disk.outbox|
    ensures GivenBy(w, l, Next(c, w, l).disk.outbox[row])
  {
    var before, after := w.disk.outbox, Next(c, w, l).disk.outbox;
    var r := after[row];
    if l.Answer? {
      var rows := RowsFor(c.naming, AnswerTo(w, l.p), l.os, l.lane, l.now);
      EnqueuedIsNew(before, rows, row);
      InsertAllAdds(before, rows, r);
    }
  }

  /** A row past the old ones is none of them. */
  lemma EnqueuedIsNew(outbox: seq<OutboxRow>, rows: seq<OutboxRow>, row: nat)
    requires UniqueRows(outbox) && |outbox| <= row < |InsertAll(outbox, rows)|
    ensures InsertAll(outbox, rows)[row] !in outbox
  {
    InsertAllGrows(outbox, rows);
  }

  /** A row was there before the last step, saying the same, or that step gave it. */
  lemma RowBefore(c: Config, ws: seq<World>, ls: seq<Label>, j: nat, row: nat)
    requires CollisionFree(c.naming.digest) && IsRun(c, ws, ls) && j < |ws| && row < |ws[j].disk.outbox|
    ensures j > 0 && |ws| == |ls| + 1
    ensures if row < |ws[j - 1].disk.outbox| then Settles(ws[j - 1].disk.outbox[row], ws[j].disk.outbox[row])
            else GivenBy(ws[j - 1], ls[j - 1], ws[j].disk.outbox[row])
  {
    assert j > 0;
    RunsAreSafe(c, ws, ls, j - 1);
    assert Enabled(c, ws[j - 1], ls[j - 1]) && ws[j - 1 + 1] == Next(c, ws[j - 1], ls[j - 1]);
    hide Next, Enabled, GivenBy;
    if row < |ws[j - 1].disk.outbox| {
      OutboxNext(c, ws, ls, j - 1);
    } else {
      NewRowIsGiven(c, ws[j - 1], ls[j - 1], row);
    }
  }

  lemma GivenStays(w: World, l: Label, before: OutboxRow, after: OutboxRow)
    requires GivenBy(w, l, before) && Settles(before, after)
    ensures GivenBy(w, l, after)
  {
  }

  /** Every row on disk was given by an earlier step of the run and says what that step gave. */
  lemma {:induction false} RowWasGiven(c: Config, ws: seq<World>, ls: seq<Label>, j: nat, row: nat) returns (i: nat)
    requires CollisionFree(c.naming.digest) && IsRun(c, ws, ls) && j < |ws| && row < |ws[j].disk.outbox|
    ensures i < j && i < |ls| && GivenBy(ws[i], ls[i], ws[j].disk.outbox[row])
  {
    hide IsRun, CollisionFree, GivenBy, Settles;
    RowBefore(c, ws, ls, j, row);
    if row < |ws[j - 1].disk.outbox| {
      i := RowWasGiven(c, ws, ls, j - 1, row);
      GivenStays(ws[i], ls[i], ws[j - 1].disk.outbox[row], ws[j].disk.outbox[row]);
    } else {
      i := j - 1;
    }
  }

  /** The step gave the room this message. */
  ghost predicate Gives(w: World, l: Label, post: Post) {
    || (l.Answer? && InTurn(w, l.p) && exists k: nat :: k < |l.os| && Tells(post, AnswerTo(w, l.p), l.os[k]))
    || (l.EnqueueAt? && Tells(post, l.to, l.o))
  }

  predicate Tells(post: Post, to: Destination, o: Observation) {
    post.body == o.body && post.roomId == to.roomId && post.threadRoot == to.threadRoot
  }

  /** Every message in a room was given by an earlier step: it is a message of an answer,
      posted to the room and thread of the turn it answers, or of a governed run, posted
      where that run said. */
  lemma EveryPostWasGiven(c: Config, ws: seq<World>, ls: seq<Label>, j: nat, post: Post) returns (i: nat)
    requires CollisionFree(c.naming.digest) && IsRun(c, ws, ls) && j < |ws| && post in ws[j].timeline
    ensures i < j && Gives(ws[i], ls[i], post)
  {
    RunsAreSafe(c, ws, ls, j);
    var m :| 0 <= m < |ws[j].timeline| && ws[j].timeline[m] == post;
    assert Backed(ws[j].timeline[m], ws[j].disk.outbox);
    var row :| 0 <= row < |ws[j].disk.outbox| && Shows(post, ws[j].disk.outbox[row]);
    i := RowWasGiven(c, ws, ls, j, row);
    var r := ws[j].disk.outbox[row];
    if ls[i].Answer? {
      assert Tells(post, AnswerTo(ws[i], ls[i].p), ls[i].os[r.ordinal]);
    }
  }

  /** The turn at hand asks what exactly one event of the log asked, and that event is
      addressed to this worker: the same words, by the same person, in the same room and
      thread. */
  lemma TurnAsksOneEvent(c: Config, ws: seq<World>, ls: seq<Label>, i: nat, p: Pid) returns (k: nat)
    requires CollisionFree(c.naming.digest) && IsRun(c, ws, ls) && i < |ws| && InTurn(ws[i], p)
    ensures k < |ws[i].log| && Asks(ws[i].procs[p].turn.trigger, ws[i].log[k])
    ensures && var e := ws[i].log[k];
               e.roomId in c.rooms && e.sender != c.me && e.mentionsMe
    ensures forall m: nat | m < |ws[i].log| && Asks(ws[i].procs[p].turn.trigger, ws[i].log[m]) :: m == k
  {
    RunsAreSafe(c, ws, ls, i);
    var w, t := ws[i], ws[i].procs[p].turn.trigger;
    assert AskedFor(c, w.log, t);
    k :| k < |w.log| && t == TriggerFor(w.log[k]) && Addressed(w.log[k], c.me, c.rooms);
    TriggerAsks(w.log[k]);
    hide IsRun, Inv;
    forall m: nat | m < |w.log| && Asks(t, w.log[m]) ensures m == k {
      assert w.log[m].eventId == w.log[k].eventId;
    }
  }

  /** Nothing else speaks: every message in a room is the text of a stored intent, sitting
      in a declared lane under the name its position derives. */
  lemma EveryPostWasStored(c: Config, ws: seq<World>, ls: seq<Label>, i: nat, post: Post)
    requires CollisionFree(c.naming.digest) && IsRun(c, ws, ls) && i < |ws| && post in ws[i].timeline
    ensures exists r :: r in ws[i].disk.outbox && Shows(post, r) && r.lane in LANES
              && post.txnId == TxnId(c.naming.digest, r.trigger, r.lane, r.ordinal)
  {
    RunsAreSafe(c, ws, ls, i);
    var m :| 0 <= m < |ws[i].timeline| && ws[i].timeline[m] == post;
    assert Backed(ws[i].timeline[m], ws[i].disk.outbox);
    var k :| 0 <= k < |ws[i].disk.outbox| && Shows(post, ws[i].disk.outbox[k]);
    assert ws[i].disk.outbox[k] in ws[i].disk.outbox;
  }

  /** The two steps that may settle an intent. */
  predicate SettlesTxn(w: World, l: Label, txnId: string) {
    || (l.MarkSent? && l.p in w.procs && w.procs[l.p].Serving? && w.procs[l.p].reply.Some?
        && w.procs[l.p].reply.value.txnId == txnId)
    || (l.Refuse? && l.row < |w.disk.outbox| && w.disk.outbox[l.row].txnId == txnId)
  }

  /** An intent stays owed through every crash, restart and replay until it is marked. */
  lemma {:induction false} OwedUntilMarked(c: Config, ws: seq<World>, ls: seq<Label>, i: nat, j: nat, row: nat)
    requires CollisionFree(c.naming.digest) && IsRun(c, ws, ls) && i <= j < |ws|
    requires row < |ws[i].disk.outbox| && Pending(ws[i].disk.outbox[row])
    requires forall k | i <= k < j :: !SettlesTxn(ws[k], ls[k], ws[i].disk.outbox[row].txnId)
    ensures row < |ws[j].disk.outbox| && ws[j].disk.outbox[row] == ws[i].disk.outbox[row]
  {
    if i < j {
      OwedUntilMarked(c, ws, ls, i, j - 1, row);
      assert Enabled(c, ws[j - 1], ls[j - 1]) && ws[j - 1 + 1] == Next(c, ws[j - 1], ls[j - 1]);
      hide Next, Enabled, IsRun, SettlesTxn;
      OwedStep(c, ws[j - 1], ls[j - 1], row);
    }
  }

  lemma OwedStep(c: Config, w: World, l: Label, row: nat)
    requires Enabled(c, w, l) && row < |w.disk.outbox| && Pending(w.disk.outbox[row])
    requires !SettlesTxn(w, l, w.disk.outbox[row].txnId)
    ensures row < |Next(c, w, l).disk.outbox| && Next(c, w, l).disk.outbox[row] == w.disk.outbox[row]
  {
    match l
    case Answer(p, lane, os, status, now) =>
      var t := w.procs[p].turn.trigger;
      InsertAllGrows(w.disk.outbox, RowsFor(c.naming, Destination(t.roomId, t.threadRoot, t.eventId), os, lane, now));
    case _ =>
  }

  /** What is marked sent is in its room as stored, under the recorded event, and no row is
      both delivered and a dead letter. */
  lemma MarksAreTrue(c: Config, ws: seq<World>, ls: seq<Label>, i: nat, row: nat)
    requires CollisionFree(c.naming.digest) && IsRun(c, ws, ls) && i < |ws| && row < |ws[i].disk.outbox|
    ensures var r := ws[i].disk.outbox[row];
            && (r.sentEventId.Some? ==>
                  exists post :: post in ws[i].timeline && Shows(post, r) && post.eventId == r.sentEventId.value)
            && (r.refusedAt.Some? ==> r.sentEventId.None?)
  {
    RunsAreSafe(c, ws, ls, i);
    var outbox, r := ws[i].disk.outbox, ws[i].disk.outbox[row];
    if r.sentEventId.Some? {
      assert Delivered(ws[i].timeline, r.txnId, r.sentEventId.value);
      var post :| post in ws[i].timeline && post.txnId == r.txnId && post.eventId == r.sentEventId.value;
      ShownByItsRow(outbox, ws[i].timeline, post, row);
    }
  }

  /** Some request under this name is on its way. */
  ghost predicate UnderWay(w: World, txnId: string) {
    exists q :: q in w.wire && q.txnId == txnId
  }

  /** The same messages bear this name. */
  ghost predicate SameUnder(a: seq<Post>, b: seq<Post>, txnId: string) {
    forall post: Post | post.txnId == txnId :: post in a <==> post in b
  }

  /** A dead letter is not sent again, and without a request under way it is not posted. */
  lemma SilentStep(c: Config, w: World, l: Label, row: nat)
    requires Enabled(c, w, l) && UniqueRows(w.disk.outbox)
    requires row < |w.disk.outbox| && w.disk.outbox[row].refusedAt.Some?
    requires !UnderWay(w, w.disk.outbox[row].txnId)
    ensures SameUnder(w.timeline, Next(c, w, l).timeline, w.disk.outbox[row].txnId)
    ensures !UnderWay(Next(c, w, l), w.disk.outbox[row].txnId)
  {
    TimelineStep(c, w, l);
    if l.Send? {
      assert l.row < row || row < l.row;
    }
    forall q | q in Next(c, w, l).wire ensures q.txnId != w.disk.outbox[row].txnId {
      assert q in w.wire || (l.Send? && q == RequestFor(w.disk.outbox[l.row]));
    }
  }

  lemma SameUnderJoins(a: seq<Post>, b: seq<Post>, d: seq<Post>, txnId: string)
    requires SameUnder(a, b, txnId) && SameUnder(b, d, txnId)
    ensures SameUnder(a, d, txnId)
  {
  }

  /** Once no request for it is under way, a dead letter stays where the refusal left it:
      nothing is posted under its name and nothing is withdrawn. */
  lemma {:induction false} DeadLettersStaySilent(c: Config, ws: seq<World>, ls: seq<Label>, i: nat, j: nat, row: nat)
    requires CollisionFree(c.naming.digest) && IsRun(c, ws, ls) && i <= j < |ws|
    requires row < |ws[i].disk.outbox| && ws[i].disk.outbox[row].refusedAt.Some?
    requires !UnderWay(ws[i], ws[i].disk.outbox[row].txnId)
    ensures SameUnder(ws[i].timeline, ws[j].timeline, ws[i].disk.outbox[row].txnId)
    ensures !UnderWay(ws[j], ws[i].disk.outbox[row].txnId)
  {
    if i < j {
      DeadLettersStaySilent(c, ws, ls, i, j - 1, row);
      UniqueAndGrown(c, ws, ls, i, j - 1, row);
      hide Next, Enabled, SameUnder, UnderWay, UniqueRows;
      SilentStep(c, ws[j - 1], ls[j - 1], row);
      assert ws[j - 1 + 1] == Next(c, ws[j - 1], ls[j - 1]);
      SameUnderJoins(ws[i].timeline, ws[j - 1].timeline, ws[j].timeline, ws[i].disk.outbox[row].txnId);
    }
  }

  lemma UniqueAndGrown(c: Config, ws: seq<World>, ls: seq<Label>, i: nat, j: nat, row: nat)
    requires CollisionFree(c.naming.digest) && IsRun(c, ws, ls) && i <= j < |ws| && row < |ws[i].disk.outbox|
    ensures UniqueRows(ws[j].disk.outbox) && row < |ws[j].disk.outbox|
    ensures Settles(ws[i].disk.outbox[row], ws[j].disk.outbox[row])
  {
    RunsAreSafe(c, ws, ls, j);
    OutboxHistory(c, ws, ls, i, j);
  }

  /** A run that goes on from this one. */
  ghost predicate Continues(c: Config, ws: seq<World>, ls: seq<Label>, ws': seq<World>, ls': seq<Label>) {
    IsRun(c, ws', ls') && ws <= ws' && ls <= ls'
  }

  /** What can be told when an intent is put down: no continuation of the run ever shows it
      exactly when its room does not show it yet and no request for it is under way. */
  lemma DeadLetterIsNeverShownIff(c: Config, ws: seq<World>, ls: seq<Label>, row: nat)
    requires CollisionFree(c.naming.digest) && IsRun(c, ws, ls)
    requires row < |ws[|ls|].disk.outbox| && ws[|ls|].disk.outbox[row].refusedAt.Some?
    ensures var w, txnId := ws[|ls|], ws[|ls|].disk.outbox[row].txnId;
            (forall ws': seq<World>, ls': seq<Label> | Continues(c, ws, ls, ws', ls') ::
               !Known(ws'[|ls'|].timeline, txnId))
            <==> !Known(w.timeline, txnId) && !UnderWay(w, txnId)
  {
    var n := |ls|;
    var w, txnId := ws[n], ws[n].disk.outbox[row].txnId;
    if Known(w.timeline, txnId) {
      assert Continues(c, ws, ls, ws, ls);
    } else if UnderWay(w, txnId) {
      var q :| q in w.wire && q.txnId == txnId;
      var ws', ls' := DeliveredNext(c, ws, ls, q);
    } else {
      forall ws': seq<World>, ls': seq<Label> | Continues(c, ws, ls, ws', ls')
        ensures !Known(ws'[|ls'|].timeline, txnId)
      {
        assert ws'[n] == w;
        DeadLettersStaySilent(c, ws', ls', n, |ls'|, row);
      }
    }
  }

  /** A request under way may be delivered next, and then its message is known. */
  lemma DeliveredNext(c: Config, ws: seq<World>, ls: seq<Label>, q: Request)
    returns (ws': seq<World>, ls': seq<Label>)
    requires IsRun(c, ws, ls) && q in ws[|ls|].wire
    ensures Continues(c, ws, ls, ws', ls') && Known(ws'[|ls'|].timeline, q.txnId)
  {
    var l := Deliver(q, "");
    var next := Next(c, ws[|ls|], l);
    KnownStep(c, ws[|ls|], l, q.txnId);
    assert Enabled(c, ws[|ls|], l);
    hide Next, Enabled;
    ws', ls' := ws + [next], ls + [l];
    forall i | 0 <= i < |ls'| ensures Enabled(c, ws'[i], ls'[i]) && ws'[i + 1] == Next(c, ws'[i], ls'[i]) {
      if i < |ls| {
        assert ws'[i] == ws[i] && ws'[i + 1] == ws[i + 1] && ls'[i] == ls[i];
      }
    }
  }

  /** And when it is shown later, that is by a delivery after the refusal. */
  lemma DeadLetterIsPostedBy(c: Config, ws: seq<World>, ls: seq<Label>, i: nat, j: nat)
    requires CollisionFree(c.naming.digest) && IsRun(c, ws, ls) && i < j < |ws| && ls[i].Refuse?
    ensures var r := ws[i].disk.outbox[ls[i].row];
            Known(ws[j].timeline, r.txnId) <==>
              || Known(ws[i].timeline, r.txnId)
              || (UnderWay(ws[i], r.txnId) && exists k :: i < k < j && Delivers(ls[k], r.txnId))
  {
    var row := ls[i].row;
    var r := ws[i].disk.outbox[row];
    assert ws[i + 1] == Next(c, ws[i], ls[i]);
    assert ws[i + 1].disk.outbox[row].refusedAt.Some? && ws[i + 1].timeline == ws[i].timeline;
    TimelineGrows(c, ws, ls, i, j);
    if !UnderWay(ws[i], r.txnId) {
      assert !UnderWay(ws[i + 1], r.txnId);
      DeadLettersStaySilent(c, ws, ls, i + 1, j, row);
      assert SameUnder(ws[i].timeline, ws[j].timeline, r.txnId);
    }
    KnownByDelivery(c, ws, ls, i + 1, j, r.txnId);
  }

  predicate Delivers(l: Label, txnId: string) {
    l.Deliver? && l.q.txnId == txnId
  }

  /** A name is known later exactly when it was known or was delivered in between. */
  lemma {:induction false} KnownByDelivery(c: Config, ws: seq<World>, ls: seq<Label>, i: nat, j: nat, txnId: string)
    requires IsRun(c, ws, ls) && i <= j < |ws|
    ensures Known(ws[j].timeline, txnId) <==>
              Known(ws[i].timeline, txnId) || exists k :: i <= k < j && Delivers(ls[k], txnId)
  {
    if i < j {
      KnownByDelivery(c, ws, ls, i, j - 1, txnId);
      KnownStep(c, ws[j - 1], ls[j - 1], txnId);
      hide Next, Enabled, Known, Delivers;
      assert ws[j - 1 + 1] == Next(c, ws[j - 1], ls[j - 1]);
    }
  }

  lemma KnownStep(c: Config, w: World, l: Label, txnId: string)
    requires Enabled(c, w, l)
    ensures Known(Next(c, w, l).timeline, txnId) <==> Known(w.timeline, txnId) || Delivers(l, txnId)
  {
    if l.Deliver? {
      var after := Accepted(w.timeline, l.q, l.eventId);
      if !Known(w.timeline, l.q.txnId) {
        assert after[|w.timeline|] in after;
        if post :| post in w.timeline && post.txnId == txnId {
          assert post in after;
        }
      }
    }
  }

  /** A message under a stored row's name shows that row: no other row bears the name. */
  lemma ShownByItsRow(outbox: seq<OutboxRow>, timeline: seq<Post>, post: Post, row: nat)
    requires RoomsOk(outbox, timeline) && UniqueRows(outbox)
    requires post in timeline && row < |outbox| && post.txnId == outbox[row].txnId
    ensures Shows(post, outbox[row])
  {
    var m :| 0 <= m < |timeline| && timeline[m] == post;
    assert Backed(timeline[m], outbox);
    var k :| 0 <= k < |outbox| && Shows(post, outbox[k]);
    assert k == row;
  }

  // --- Nothing lost, nothing from the past --------------------------------------------------------

  /** Wherever a run stands, each event addressed to this worker after the baseline and
      before the committed cursor has a final outcome or a time-out note on record. */
  lemma NoAddressedEventIsLost(c: Config, ws: seq<World>, ls: seq<Label>, i: nat, k: nat)
    requires CollisionFree(c.naming.digest) && IsRun(c, ws, ls) && i < |ws|
    requires ws[i].disk.cursor.Some? && ws[i].baseline.Some?
    requires ws[i].baseline.value <= k < ws[i].disk.cursor.value.sinceToken && k < |ws[i].log|
    requires Addressed(ws[i].log[k], c.me, c.rooms)
    ensures Handled(ws[i].disk, ws[i].log[k])
  {
    RunsAreSafe(c, ws, ls, i);
  }

  ghost predicate Commits(l: Label) {
    l.Commit? || l.Baseline?
  }

  lemma StandsStep(c: Config, w: World, l: Label)
    requires Enabled(c, w, l) && !Commits(l)
    ensures Next(c, w, l).disk.cursor == w.disk.cursor && Next(c, w, l).disk.seen == w.disk.seen
    ensures w.log <= Next(c, w, l).log
  {
  }

  lemma {:induction false} UncommittedStands(c: Config, ws: seq<World>, ls: seq<Label>, i: nat, j: nat)
    requires IsRun(c, ws, ls) && i <= j < |ws|
    requires forall k | i <= k < j :: !Commits(ls[k])
    ensures ws[j].disk.cursor == ws[i].disk.cursor && ws[j].disk.seen == ws[i].disk.seen
    ensures ws[i].log <= ws[j].log
  {
    if i < j {
      hide Next, Enabled, Commits;
      UncommittedStands(c, ws, ls, i, j - 1);
      StandsStep(c, ws[j - 1], ls[j - 1]);
      assert ws[j - 1 + 1] == Next(c, ws[j - 1], ls[j - 1]);
    }
  }

  /** A batch that was not committed is offered again, trigger for trigger and in one piece,
      whatever crashes and restarts came between: after it comes what arrived since, and
      before it only what a homeserver that resumes earlier brings along. Every turn in it
      that has not ended for good is granted. */
  lemma UncommittedBatchComesBack(c: Config, ws: seq<World>, ls: seq<Label>, i: nat, j: nat)
    requires CollisionFree(c.naming.digest) && IsRun(c, ws, ls) && i <= j < |ls|
    requires ls[i].Sync? && ls[j].Sync? && ls[j].from <= ls[i].from && ls[i].upto <= ls[j].upto
    requires forall k | i <= k < j :: !Commits(ls[k])
    ensures ls[i].from <= |ws[j].log|
    ensures Selected(ws[j].log[ls[j].from..ls[i].from], ws[j].disk.seen, c.me, c.rooms)
              + ws[i + 1].procs[ls[i].p].round.todo
         <= ws[j + 1].procs[ls[j].p].round.todo
    ensures forall t | t in ws[i + 1].procs[ls[i].p].round.todo ::
              Granted(ws[j + 1], ls[j].p, t)
              || (KeyOf(t) in ws[j + 1].disk.turns && Terminal(ws[j + 1].disk.turns[KeyOf(t)]))
  {
    UncommittedStands(c, ws, ls, i, j);
    RunsAreSafe(c, ws, ls, j);
    var w, w' := ws[i], ws[j];
    assert Enabled(c, w, ls[i]) && ws[i + 1] == Next(c, w, ls[i]);
    assert Enabled(c, w', ls[j]) && ws[j + 1] == Next(c, w', ls[j]);
    LongerSelection(c, w.log, w'.log, ls[j].from, ls[i].from, ls[i].upto, ls[j].upto, w.disk.seen);
    SyncGrants(c, w', ls[j]);
  }

  lemma LongerSelection(c: Config, log: seq<RoomEvent>, longer: seq<RoomEvent>,
                        earlier: nat, from: nat, upto: nat, further: nat, seen: seq<string>)
    requires log <= longer && earlier <= from <= upto <= |log| && upto <= further <= |longer|
    ensures Selected(longer[earlier..from], seen, c.me, c.rooms) + Selected(log[from..upto], seen, c.me, c.rooms)
         <= Selected(longer[earlier..further], seen, c.me, c.rooms)
  {
    var before, middle, after := longer[earlier..from], log[from..upto], longer[upto..further];
    assert middle == longer[from..upto];
    assert longer[earlier..further] == before + (middle + after);
    SelectedJoin(before, middle + after, seen, c.me, c.rooms);
    SelectedJoin(middle, after, seen, c.me, c.rooms);
  }

  /** Right after a sync every turn that has not ended for good is granted. */
  lemma SyncGrants(c: Config, w: World, l: Label)
    requires TurnsOk(w) && Enabled(c, w, l) && l.Sync?
    ensures forall t :: Granted(Next(c, w, l), l.p, t)
              || (KeyOf(t) in w.disk.turns && Terminal(w.disk.turns[KeyOf(t)]))
  {
    assert w.procs[l.p].active == {};
  }

  predicate Granted(w: World, p: Pid, t: Trigger)
    requires Serves(w, p)
  {
    Grants(Decide(w.disk.turns, w.procs[p].active, KeyOf(t)))
  }

  lemma {:induction false} SelectedJoin(
      a: seq<RoomEvent>, b: seq<RoomEvent>, seen: seq<string>, me: string, rooms: seq<string>)
    ensures Selected(a + b, seen, me, rooms) == Selected(a, seen, me, rooms) + Selected(b, seen, me, rooms)
  {
    if b == [] {
      assert a + b == a;
    } else {
      assert (a + b)[..|a + b| - 1] == a + b[..|b| - 1];
      SelectedJoin(a, b[..|b| - 1], seen, me, rooms);
    }
  }

  /** With distinct event ids, a trigger in a selection names one position of the log. */
  lemma SelectedAt(c: Config, w: World, from: nat, upto: nat, k: nat)
    requires DistinctIds(w.log) && from <= upto <= |w.log| && k < |w.log|
    ensures TriggerFor(w.log[k]) in Selected(w.log[from..upto], w.disk.seen, c.me, c.rooms) <==>
              from <= k < upto && Addressed(w.log[k], c.me, c.rooms) && w.log[k].eventId !in w.disk.seen
  {
    hide Selected, Addressed;
    var events, t := w.log[from..upto], TriggerFor(w.log[k]);
    SelectedIff(events, w.disk.seen, c.me, c.rooms, t);
    if t in Selected(events, w.disk.seen, c.me, c.rooms) {
      var e :| e in events && Addressed(e, c.me, c.rooms) && e.eventId !in w.disk.seen && t == TriggerFor(e);
      OnePosition(w.log, from, upto, k, e);
    }
    if from <= k < upto {
      assert events[k - from] == w.log[k];
    }
  }

  lemma OnePosition(log: seq<RoomEvent>, from: nat, upto: nat, k: nat, e: RoomEvent)
    requires DistinctIds(log) && from <= upto <= |log| && k < |log|
    requires e in log[from..upto] && e.eventId == log[k].eventId
    ensures from <= k < upto && e == log[k]
  {
    var m :| 0 <= m < |log[from..upto]| && log[from..upto][m] == e;
    assert log[from + m].eventId == log[k].eventId;
  }

  /** When the homeserver resumes at the committed position, no event the baseline wrote
      off is ever selected; when it redelivers from earlier, one is selected exactly when
      it is addressed to this worker and the bounded seen set has let it go. */
  lemma BaselineStaysPast(c: Config, ws: seq<World>, ls: seq<Label>, i: nat, k: nat)
    requires CollisionFree(c.naming.digest) && IsRun(c, ws, ls) && i < |ls| && ls[i].Sync?
    requires ws[i].baseline.Some? && k < ws[i].baseline.value && k < |ws[i].log|
    ensures TriggerFor(ws[i].log[k]) in ws[i + 1].procs[ls[i].p].round.todo <==>
              && ls[i].from <= k
              && Addressed(ws[i].log[k], c.me, c.rooms)
              && ws[i].log[k].eventId !in ws[i].disk.seen
    ensures ls[i].from == ws[i].disk.cursor.value.sinceToken ==>
              TriggerFor(ws[i].log[k]) !in ws[i + 1].procs[ls[i].p].round.todo
  {
    RunsAreSafe(c, ws, ls, i);
    assert ws[i + 1] == Next(c, ws[i], ls[i]);
    SelectedAt(c, ws[i], ls[i].from, ls[i].upto, k);
  }

  /** Which events a sync offers, wherever the homeserver resumes: those addressed to this
      worker in its window that the cursor has not passed, and of those it has passed only
      the ones the seen set has let go. A turn that ran out of time is therefore not offered
      once its round is committed, although the ledger would grant it. */
  lemma PassedEventsAreNotOffered(c: Config, ws: seq<World>, ls: seq<Label>, i: nat, k: nat)
    requires CollisionFree(c.naming.digest) && IsRun(c, ws, ls) && i < |ls| && ls[i].Sync?
    requires k < |ws[i].log|
    ensures TriggerFor(ws[i].log[k]) in ws[i + 1].procs[ls[i].p].round.todo <==>
              && ls[i].from <= k < ls[i].upto
              && Addressed(ws[i].log[k], c.me, c.rooms)
              && (ws[i].disk.cursor.value.sinceToken <= k || ws[i].log[k].eventId !in ws[i].disk.seen)
  {
    RunsAreSafe(c, ws, ls, i);
    assert ws[i + 1] == Next(c, ws[i], ls[i]);
    SelectedAt(c, ws[i], ls[i].from, ls[i].upto, k);
    var since := ws[i].disk.cursor.value.sinceToken;
    if since <= k && ls[i].from <= k < ls[i].upto && Addressed(ws[i].log[k], c.me, c.rooms) {
      SyncSelectsAll(c, ws[i], ls[i].from, ls[i].upto, k);
    }
  }

  // --- The cursor ---------------------------------------------------------------------------------

  lemma CursorStep(c: Config, w: World, l: Label)
    requires SeenOk(w) && RoundsOk(c, w) && Enabled(c, w, l) && w.disk.cursor.Some?
    ensures !l.Baseline?
    ensures Next(c, w, l).disk.cursor.Some? && Later(w.disk.cursor.value, Next(c, w, l).disk.cursor.value)
  {
    if l.Commit? {
      assert RoundOk(c, w, w.procs[l.p]);
    }
  }

  ghost predicate Later(a: SyncCursor, b: SyncCursor) {
    a.baselineAt == b.baselineAt && a.sinceToken <= b.sinceToken && a.watermark <= b.watermark
  }

  /** The past is adopted once in the life of a state file, and from then on the position to
      resume from and the watermark only move forward. */
  lemma {:induction false} CursorOnlyAdvances(c: Config, ws: seq<World>, ls: seq<Label>, i: nat, j: nat)
    requires CollisionFree(c.naming.digest) && IsRun(c, ws, ls) && i <= j < |ws|
    requires ws[i].disk.cursor.Some?
    ensures !NeedsBaseline(ws[i].disk.cursor)
    ensures ws[j].disk.cursor.Some? && Later(ws[i].disk.cursor.value, ws[j].disk.cursor.value)
    ensures forall k | i <= k < j :: !ls[k].Baseline?
  {
    hide IsRun, NeedsBaseline, CollisionFree, Later;
    AtMostOneBaseline(c, ws, ls, i);
    if i == j {
      LaterThanItself(ws[i].disk.cursor.value);
    } else {
      CursorOnlyAdvances(c, ws, ls, i, j - 1);
      CursorNext(c, ws, ls, j - 1);
      LaterStill(ws[i].disk.cursor.value, ws[j - 1].disk.cursor.value, ws[j - 1 + 1].disk.cursor.value);
    }
  }

  lemma LaterThanItself(a: SyncCursor)
    ensures Later(a, a)
  {
  }

  lemma LaterStill(a: SyncCursor, b: SyncCursor, d: SyncCursor)
    requires Later(a, b) && Later(b, d)
    ensures Later(a, d)
  {
  }

  lemma AtMostOneBaseline(c: Config, ws: seq<World>, ls: seq<Label>, i: nat)
    requires CollisionFree(c.naming.digest) && IsRun(c, ws, ls) && i < |ws| && ws[i].disk.cursor.Some?
    ensures |ws| == |ls| + 1 && !NeedsBaseline(ws[i].disk.cursor)
  {
    RunsAreSafe(c, ws, ls, i);
  }

  lemma CursorNext(c: Config, ws: seq<World>, ls: seq<Label>, k: nat)
    requires CollisionFree(c.naming.digest) && IsRun(c, ws, ls) && k < |ls| && ws[k].disk.cursor.Some?
    ensures ws[k + 1].disk.cursor.Some? && Later(ws[k].disk.cursor.value, ws[k + 1].disk.cursor.value)
    ensures !ls[k].Baseline?
  {
    RunsAreSafe(c, ws, ls, k);
    hide Next, Enabled;
    CursorStep(c, ws[k], ls[k]);
    assert ws[k + 1] == Next(c, ws[k], ls[k]);
  }

  // --- What a final outcome means -------------------------------------------------------------------

  /** The step answers the turn with this key: the answer is written down. */
  ghost predicate Answers(w: World, l: Label, key: TurnKey) {
    && l.Answer? && InTurn(w, l.p) && w.procs[l.p].turn.Deciding?
    && KeyOf(w.procs[l.p].turn.trigger) == key
  }

  /** The step tries to answer the turn with this key and cannot write the answer down. */
  ghost predicate Drops(w: World, l: Label, key: TurnKey) {
    && l.Unstored? && InTurn(w, l.p) && w.procs[l.p].turn.Deciding?
    && KeyOf(w.procs[l.p].turn.trigger) == key
  }

  /** The step ends the turn with this key by an error nobody turned into an answer. */
  ghost predicate GivesUp(w: World, l: Label, key: TurnKey) {
    l.Fail? && InTurn(w, l.p) && KeyOf(w.procs[l.p].turn.trigger) == key
  }

  /** Every message of the answer has its place in the outbox. */
  ghost predicate AnswerHeld(outbox: seq<OutboxRow>, l: Label, key: TurnKey)
    requires l.Answer? || l.Unstored?
  {
    forall k: nat | k < |l.os| :: Held(outbox, key.eventId, l.lane, k)
  }

  ghost predicate AnsweredAt(ws: seq<World>, ls: seq<Label>, i: nat, key: TurnKey, status: string)
    requires i < |ws| && i < |ls|
  {
    Answers(ws[i], ls[i], key) && ls[i].status == status
  }

  /** Short of a disk fault an answer is written down exactly when every text of it can be
      encoded, which the session's output decides before the write. */
  lemma AcceptedIffStorable(c: Config, w: World, l: Label, key: TurnKey)
    requires Enabled(c, w, l) && (Answers(w, l, key) || Drops(w, l, key)) && !(l.Unstored? && l.fault)
    ensures Answers(w, l, key) <==> Storable(c, l.os)
  {
  }

  lemma AnsweredBefore(c: Config, w: World, l: Label, p: Pid)
    requires Enabled(c, w, l)
    requires Serves(Next(c, w, l), p) && Next(c, w, l).procs[p].turn.Answered?
    ensures var turn := Next(c, w, l).procs[p].turn;
      if l.Answer? && l.p == p then Answers(w, l, KeyOf(turn.trigger)) && l.status == turn.status
      else Serves(w, p) && w.procs[p].turn == turn
  {
  }

  lemma AnsweredPreviously(c: Config, ws: seq<World>, ls: seq<Label>, j: nat, p: Pid)
    requires IsRun(c, ws, ls) && j < |ws|
    requires Serves(ws[j], p) && ws[j].procs[p].turn.Answered?
    ensures j > 0 && |ws| == |ls| + 1
    ensures var turn, w, l := ws[j].procs[p].turn, ws[j - 1], ls[j - 1];
      if l.Answer? && l.p == p then Answers(w, l, KeyOf(turn.trigger)) && l.status == turn.status
      else Serves(w, p) && w.procs[p].turn == turn
  {
    assert j > 0;
    assert Enabled(c, ws[j - 1], ls[j - 1]) && ws[j - 1 + 1] == Next(c, ws[j - 1], ls[j - 1]);
    hide IsRun, Next, Enabled, Answers;
    AnsweredBefore(c, ws[j - 1], ls[j - 1], p);
  }

  /** A turn whose answer is known got it from an earlier step of this run. */
  lemma {:induction false} AnsweredCameFrom(c: Config, ws: seq<World>, ls: seq<Label>, j: nat, p: Pid)
    returns (i: nat)
    requires IsRun(c, ws, ls) && j < |ws|
    requires Serves(ws[j], p) && ws[j].procs[p].turn.Answered?
    ensures i < j && AnsweredAt(ws, ls, i, KeyOf(ws[j].procs[p].turn.trigger), ws[j].procs[p].turn.status)
  {
    hide IsRun, Answers, KeyOf;
    AnsweredPreviously(c, ws, ls, j, p);
    if ls[j - 1].Answer? && ls[j - 1].p == p {
      i := j - 1;
    } else {
      i := AnsweredCameFrom(c, ws, ls, j - 1, p);
    }
  }

  /** Once written down, an answer's places in the outbox stay taken to the end of the run. */
  lemma AnswersStay(c: Config, ws: seq<World>, ls: seq<Label>, i: nat, j: nat, key: TurnKey)
    requires CollisionFree(c.naming.digest) && IsRun(c, ws, ls) && i < j < |ws| && Answers(ws[i], ls[i], key)
    ensures AnswerHeld(ws[j].disk.outbox, ls[i], key)
  {
    RunsAreSafe(c, ws, ls, i);
    assert Enabled(c, ws[i], ls[i]) && ws[i + 1] == Next(c, ws[i], ls[i]);
    OutboxHistory(c, ws, ls, i + 1, j);
    var l, t := ls[i], ws[i].procs[ls[i].p].turn.trigger;
    var to := Destination(t.roomId, t.threadRoot, t.eventId);
    forall k: nat | k < |l.os| ensures Held(ws[j].disk.outbox, key.eventId, l.lane, k) {
      EnqueuedHolds(ws[i].disk.outbox, c.naming, to, l.os, l.lane, l.now, k);
      HeldStays(ws[i + 1].disk.outbox, ws[j].disk.outbox, key.eventId, l.lane, k);
    }
  }

  // --- A finished turn is never answered afterwards -----------------------------------------------

  /** This is the key of an event of the log. */
  ghost predicate KeyOfEvent(c: Config, log: seq<RoomEvent>, key: TurnKey) {
    exists t :: AskedFor(c, log, t) && KeyOf(t) == key
  }

  lemma OneTurnPerEvent(c: Config, log: seq<RoomEvent>, t: Trigger, key: TurnKey)
    requires DistinctIds(log) && AskedFor(c, log, t) && KeyOfEvent(c, log, key) && t.eventId == key.eventId
    ensures KeyOf(t) == key
  {
    var s :| AskedFor(c, log, s) && KeyOf(s) == key;
    var i :| 0 <= i < |log| && t == TriggerFor(log[i]);
    var j :| 0 <= j < |log| && s == TriggerFor(log[j]);
    assert log[i].eventId == log[j].eventId;
  }

  /** An enqueue takes no position of another trigger or lane. */
  lemma HeldElsewhere(outbox: seq<OutboxRow>, n: Naming, to: Destination, os: seq<Observation>, lane: string, now: int,
                      trigger: string, lane': string, k: nat)
    requires to.trigger != trigger || lane != lane'
    ensures Held(Enqueued(outbox, n, to, os, lane, now), trigger, lane', k) <==> Held(outbox, trigger, lane', k)
  {
    var after, rows := Enqueued(outbox, n, to, os, lane, now), RowsFor(n, to, os, lane, now);
    InsertAllGrows(outbox, rows);
    if Held(after, trigger, lane', k) {
      var r :| r in after && r.trigger == trigger && r.lane == lane' && r.ordinal == k;
      if r !in outbox {
        InsertAllAdds(outbox, rows, r);
      }
    }
    if Held(outbox, trigger, lane', k) {
      var r :| r in outbox && r.trigger == trigger && r.lane == lane' && r.ordinal == k;
      assert r in after;
    }
  }

  /** A running turn is not the finished one. */
  lemma OtherEvent(c: Config, w: World, p: Pid, key: TurnKey)
    requires Inv(c, w) && InTurn(w, p) && KeyOfEvent(c, w.log, key)
    requires key in w.disk.turns && Terminal(w.disk.turns[key])
    ensures w.procs[p].turn.trigger.eventId != key.eventId
  {
    var t := w.procs[p].turn.trigger;
    assert KeyOf(t) in w.procs[p].active && KeyOf(t) != key;
    if t.eventId == key.eventId {
      OneTurnPerEvent(c, w.log, t, key);
      assert false;
    }
  }

  lemma FinishedLaneStep(c: Config, w: World, l: Label, key: TurnKey, lane: string, k: nat)
    requires Inv(c, w) && Enabled(c, w, l) && KeyOfEvent(c, w.log, key)
    requires key in w.disk.turns && Terminal(w.disk.turns[key]) && lane != RUN_LANE
    ensures Held(Next(c, w, l).disk.outbox, key.eventId, lane, k) <==> Held(w.disk.outbox, key.eventId, lane, k)
    ensures KeyOfEvent(c, Next(c, w, l).log, key)
  {
    KeyStays(c, w, l, key);
    if l.Answer? {
      var t := w.procs[l.p].turn.trigger;
      OtherEvent(c, w, l.p, key);
      HeldElsewhere(w.disk.outbox, c.naming, Destination(t.roomId, t.threadRoot, t.eventId), l.os, l.lane, l.now,
                    key.eventId, lane, k);
    } else if l.EnqueueAt? {
      HeldBesides(w.disk.outbox, RowFor(c.naming, l.to, l.o, RUN_LANE, l.ordinal, l.now), key.eventId, lane, k);
    } else if l.MarkSent? || l.Refuse? {
      HeldMarked(c, w, l, key.eventId, lane, k);
    }
  }

  lemma KeyStays(c: Config, w: World, l: Label, key: TurnKey)
    requires Enabled(c, w, l) && KeyOfEvent(c, w.log, key)
    ensures KeyOfEvent(c, Next(c, w, l).log, key)
  {
    var t :| AskedFor(c, w.log, t) && KeyOf(t) == key;
    AskedForStays(c, w.log, Next(c, w, l).log, t);
  }

  lemma HeldBesides(outbox: seq<OutboxRow>, row: OutboxRow, trigger: string, lane: string, k: nat)
    requires row.lane != lane
    ensures Held(InsertOrIgnore(outbox, row), trigger, lane, k) <==> Held(outbox, trigger, lane, k)
  {
    var after := InsertOrIgnore(outbox, row);
    if Held(outbox, trigger, lane, k) {
      var r :| r in outbox && r.trigger == trigger && r.lane == lane && r.ordinal == k;
      assert r in after;
    }
  }

  /** Marks move no row. */
  lemma HeldMarked(c: Config, w: World, l: Label, trigger: string, lane: string, k: nat)
    requires Enabled(c, w, l) && NamesOk(c, w) && (l.MarkSent? || l.Refuse?)
    ensures Held(Next(c, w, l).disk.outbox, trigger, lane, k) <==> Held(w.disk.outbox, trigger, lane, k)
  {
    var before, after := w.disk.outbox, Next(c, w, l).disk.outbox;
    OutboxStep(c, w, l);
    assert |after| == |before|;
    if Held(before, trigger, lane, k) {
      HeldStays(before, after, trigger, lane, k);
    }
    if Held(after, trigger, lane, k) {
      var r :| r in after && r.trigger == trigger && r.lane == lane && r.ordinal == k;
      var i :| 0 <= i < |after| && after[i] == r;
      assert Settles(before[i], after[i]) && before[i] in before;
    }
  }

  /** From the moment a turn has its final outcome, the lanes its answers go to neither gain
      nor lose a position: what was not written down by then never will be. */
  lemma {:induction false} FinishedLanesStand(c: Config, ws: seq<World>, ls: seq<Label>, i: nat, j: nat,
                                              key: TurnKey, lane: string, k: nat)
    requires CollisionFree(c.naming.digest) && IsRun(c, ws, ls) && i <= j < |ws| && lane != RUN_LANE
    requires KeyOfEvent(c, ws[i].log, key) && key in ws[i].disk.turns && Terminal(ws[i].disk.turns[key])
    ensures KeyOfEvent(c, ws[j].log, key)
    ensures Held(ws[j].disk.outbox, key.eventId, lane, k) <==> Held(ws[i].disk.outbox, key.eventId, lane, k)
  {
    if i < j {
      FinishedLanesStand(c, ws, ls, i, j - 1, key, lane, k);
      FinishedForever(c, ws, ls, i, j - 1, key);
      hide IsRun, KeyOfEvent, Held, Terminal;
      FinishedLaneNext(c, ws, ls, j - 1, key, lane, k);
    }
  }

  lemma FinishedLaneNext(c: Config, ws: seq<World>, ls: seq<Label>, i: nat, key: TurnKey, lane: string, k: nat)
    requires CollisionFree(c.naming.digest) && IsRun(c, ws, ls) && i < |ws| - 1 && lane != RUN_LANE
    requires KeyOfEvent(c, ws[i].log, key) && key in ws[i].disk.turns && Terminal(ws[i].disk.turns[key])
    ensures KeyOfEvent(c, ws[i + 1].log, key)
    ensures Held(ws[i + 1].disk.outbox, key.eventId, lane, k) <==> Held(ws[i].disk.outbox, key.eventId, lane, k)
  {
    RunsAreSafe(c, ws, ls, i);
    assert Enabled(c, ws[i], ls[i]) && ws[i + 1] == Next(c, ws[i], ls[i]);
    hide IsRun, Next, Enabled, Inv, KeyOfEvent, Held, Terminal;
    FinishedLaneStep(c, ws[i], ls[i], key, lane, k);
  }

  /** An answer that could not be written down leaves its places as they were, for good. */
  lemma DroppedForGood(c: Config, ws: seq<World>, ls: seq<Label>, i: nat, j: nat, key: TurnKey)
    requires CollisionFree(c.naming.digest) && IsRun(c, ws, ls) && i < j < |ws|
    requires Drops(ws[i], ls[i], key) && ls[i].lane != RUN_LANE && TerminalNamed(ls[i].status).Some?
    ensures AnswerHeld(ws[j].disk.outbox, ls[i], key) <==> AnswerHeld(ws[i].disk.outbox, ls[i], key)
  {
    DroppedNow(c, ws, ls, i, key);
    forall k: nat | k < |ls[i].os|
      ensures Held(ws[j].disk.outbox, key.eventId, ls[i].lane, k)
         <==> Held(ws[i].disk.outbox, key.eventId, ls[i].lane, k)
    {
      FinishedLanesStand(c, ws, ls, i + 1, j, key, ls[i].lane, k);
    }
  }

  lemma DroppedNow(c: Config, ws: seq<World>, ls: seq<Label>, i: nat, key: TurnKey)
    requires CollisionFree(c.naming.digest) && IsRun(c, ws, ls) && i < |ls|
    requires Drops(ws[i], ls[i], key) && TerminalNamed(ls[i].status).Some?
    ensures KeyOfEvent(c, ws[i + 1].log, key) && ws[i + 1].disk.outbox == ws[i].disk.outbox
    ensures key in ws[i + 1].disk.turns && Terminal(ws[i + 1].disk.turns[key])
  {
    RunsAreSafe(c, ws, ls, i);
    assert ws[i + 1] == Next(c, ws[i], ls[i]);
    assert AskedFor(c, ws[i].log, ws[i].procs[ls[i].p].turn.trigger);
  }

  // --- What accounts for a final outcome ------------------------------------------------------------

  /** How a turn may come to its final outcome at a step. */
  ghost predicate Ends(w: World, l: Label, key: TurnKey, outcome: TurnState) {
    || (GivesUp(w, l, key) && outcome == Failed)
    || (Drops(w, l, key) && TerminalNamed(l.status) == Some(outcome))
    || ((l.Settle? || l.Abort?) && InTurn(w, l.p) && w.procs[l.p].turn.Answered?
        && KeyOf(w.procs[l.p].turn.trigger) == key && TerminalNamed(w.procs[l.p].turn.status) == Some(outcome))
  }

  lemma EndsBy(c: Config, w: World, l: Label, key: TurnKey)
    requires TurnsOk(w) && Enabled(c, w, l)
    requires !(key in w.disk.turns && Terminal(w.disk.turns[key]))
    requires key in Next(c, w, l).disk.turns && Terminal(Next(c, w, l).disk.turns[key])
    ensures Ends(w, l, key, Next(c, w, l).disk.turns[key])
  {
  }

  lemma StepFacts(c: Config, ws: seq<World>, ls: seq<Label>, k: nat)
    requires CollisionFree(c.naming.digest) && IsRun(c, ws, ls) && k < |ls|
    ensures |ws| == |ls| + 1 && TurnsOk(ws[k]) && Enabled(c, ws[k], ls[k]) && ws[k + 1] == Next(c, ws[k], ls[k])
  {
    RunsAreSafe(c, ws, ls, k);
  }

  /** A final outcome was there before the last step, or that step brought it. */
  lemma LastStep(c: Config, ws: seq<World>, ls: seq<Label>, j: nat, key: TurnKey)
    requires CollisionFree(c.naming.digest) && IsRun(c, ws, ls) && j < |ws|
    requires key in ws[j].disk.turns && Terminal(ws[j].disk.turns[key])
    ensures j > 0 && |ws| == |ls| + 1
    ensures var w := ws[j - 1];
      if key in w.disk.turns && Terminal(w.disk.turns[key]) then w.disk.turns[key] == ws[j].disk.turns[key]
      else Ends(w, ls[j - 1], key, ws[j].disk.turns[key])
  {
    assert j > 0;
    StepFacts(c, ws, ls, j - 1);
    hide Next, Enabled, IsRun, TurnsOk, Ends;
    var w, l := ws[j - 1], ls[j - 1];
    if key in w.disk.turns && Terminal(w.disk.turns[key]) {
      TerminalStays(c, w, l, key);
    } else {
      EndsBy(c, w, l, key);
    }
  }

  /** The step that accounts for an outcome: it answered the turn with that status, tried to,
      or gave up on it. */
  ghost predicate Accounts(w: World, l: Label, key: TurnKey, outcome: TurnState) {
    || (GivesUp(w, l, key) && outcome == Failed)
    || ((Answers(w, l, key) || Drops(w, l, key)) && TerminalNamed(l.status) == Some(outcome))
  }

  /** Every final outcome on the ledger has an earlier step that accounts for it. */
  lemma {:induction false} OutcomeIsAccountedFor(c: Config, ws: seq<World>, ls: seq<Label>, j: nat, key: TurnKey)
    returns (i: nat)
    requires CollisionFree(c.naming.digest) && IsRun(c, ws, ls) && j < |ws|
    requires key in ws[j].disk.turns && Terminal(ws[j].disk.turns[key])
    ensures i < j && i < |ls| && Accounts(ws[i], ls[i], key, ws[j].disk.turns[key])
  {
    LastStep(c, ws, ls, j, key);
    var w, l := ws[j - 1], ls[j - 1];
    if key in w.disk.turns && Terminal(w.disk.turns[key]) {
      i := OutcomeIsAccountedFor(c, ws, ls, j - 1, key);
    } else if GivesUp(w, l, key) || Drops(w, l, key) {
      i := j - 1;
    } else {
      i := AnsweredCameFrom(c, ws, ls, j - 1, l.p);
    }
  }

  /** What a final outcome says about the answer. Some earlier step accounts for it; if that
      step answered the turn or tried to, every message of the answer is in the outbox at
      every later time exactly when the answer was accepted there, or its places had been
      taken by an earlier attempt. In the lane of governed runs, whose later messages have
      positions of their own, acceptance is still enough. */
  lemma FinishedMeansAnswered(c: Config, ws: seq<World>, ls: seq<Label>, j: nat, key: TurnKey) returns (i: nat)
    requires CollisionFree(c.naming.digest) && IsRun(c, ws, ls) && j < |ws|
    requires key in ws[j].disk.turns && Terminal(ws[j].disk.turns[key])
    ensures i < j && i < |ls| && Accounts(ws[i], ls[i], key, ws[j].disk.turns[key])
    ensures ls[i].Answer? ==> AnswerHeld(ws[j].disk.outbox, ls[i], key)
    ensures (ls[i].Answer? || ls[i].Unstored?) && ls[i].lane != RUN_LANE ==>
              (AnswerHeld(ws[j].disk.outbox, ls[i], key)
               <==> ls[i].Answer? || AnswerHeld(ws[i].disk.outbox, ls[i], key))
  {
    i := OutcomeIsAccountedFor(c, ws, ls, j, key);
    hide IsRun, AnswerHeld, Terminal, TerminalNamed;
    if Answers(ws[i], ls[i], key) {
      AnswersStay(c, ws, ls, i, j, key);
    } else if Drops(ws[i], ls[i], key) && ls[i].lane != RUN_LANE {
      DroppedForGood(c, ws, ls, i, j, key);
    }
  }

  /** So, short of a disk fault, a turn that ended completed, blocked or failed has all the
      messages of its answer in the outbox exactly when every text of it can be encoded, or
      an earlier attempt had taken their places. */
  lemma AnswerIsStoredIff(c: Config, ws: seq<World>, ls: seq<Label>, i: nat, j: nat, key: TurnKey)
    requires CollisionFree(c.naming.digest) && IsRun(c, ws, ls) && i < j < |ws| && i < |ls|
    requires Answers(ws[i], ls[i], key) || Drops(ws[i], ls[i], key)
    requires TerminalNamed(ls[i].status).Some? && ls[i].lane != RUN_LANE && !(ls[i].Unstored? && ls[i].fault)
    ensures AnswerHeld(ws[j].disk.outbox, ls[i], key)
       <==> Storable(c, ls[i].os) || AnswerHeld(ws[i].disk.outbox, ls[i], key)
  {
    assert Enabled(c, ws[i], ls[i]);
    AcceptedIffStorable(c, ws[i], ls[i], key);
    hide IsRun, Enabled, AnswerHeld, TerminalNamed;
    if Answers(ws[i], ls[i], key) {
      AnswersStay(c, ws, ls, i, j, key);
    } else {
      DroppedForGood(c, ws, ls, i, j, key);
    }
  }
}
