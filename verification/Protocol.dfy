/** The whole room protocol as a transition system: any number of Bridge processes for
    one worker, one state file, and a homeserver. A crash is a step that keeps the disk
    and the homeserver and clears the process (application.py, supervisor.py). */
module Protocol {
  import opened Common
  import opened BridgeStore
  import opened InboxTurns
  import opened OutboxSends
  import opened Names
  import InstanceLock

  type Pid = nat

  /** What preflight confirmed for this worker, how it names its messages, and which texts
      the state file can encode. */
  datatype Config = Config(me: string, rooms: seq<string>, naming: Naming, storable: string -> bool)

  predicate Storable(c: Config, os: seq<Observation>) {
    forall o | o in os :: c.storable(o.body)
  }

  /** One message as the room shows it, under the transaction id it arrived with. */
  datatype Post = Post(txnId: string, roomId: string, threadRoot: Option<string>, body: string, eventId: string)

  datatype Turn =
    | NoTurn
    | Deciding(trigger: Trigger)
    | Answered(trigger: Trigger, status: string)

  datatype Round =
    | Idle
    | Holding(from: nat, upto: nat, todo: seq<Trigger>)
    | Leaving

  /** A send on its way to the homeserver. It may arrive late, even after its sender is
      gone, or never. */
  datatype Request = Request(txnId: string, roomId: string, threadRoot: Option<string>, body: string)

  /** The homeserver's answer to a send, not yet written down. */
  datatype Reply = Reply(txnId: string, eventId: string)

  /** A live process. A process that does not appear holds nothing. */
  datatype Proc =
    | Locked
    | Serving(active: set<TurnKey>, round: Round, turn: Turn, reply: Option<Reply>)

  /** log and timeline are the homeserver's: what was said to this worker's rooms, and
      what this worker said in them. wire is the network's. baseline is the position
      written off at first sync. */
  datatype World = World(
    lock: Option<Pid>,
    procs: map<Pid, Proc>,
    disk: Disk,
    log: seq<RoomEvent>,
    timeline: seq<Post>,
    wire: multiset<Request>,
    baseline: Option<nat>)

  datatype Label =
    | Arrive(e: RoomEvent)
    | Acquire(p: Pid)
    | Open(p: Pid)
    | Close(p: Pid)
    | Release(p: Pid)
    | Crash(p: Pid)
    | Baseline(p: Pid, from: nat, upto: nat, now: int)
    | Sync(p: Pid, from: nat, upto: nat)
    | Claim(p: Pid)
    | Answer(p: Pid, lane: string, os: seq<Observation>, status: string, now: int)
    | Unstored(p: Pid, lane: string, os: seq<Observation>, status: string, fault: bool)
    | Settle(p: Pid)
    | Abort(p: Pid)
    | Cancel(p: Pid)
    | Fail(p: Pid)
    | Commit(p: Pid)
    | EnqueueAt(p: Pid, to: Destination, o: Observation, ordinal: nat, now: int)
    | Send(p: Pid, row: nat)
    | Deliver(q: Request, eventId: string)
    | Lose(q: Request)
    | Hear(p: Pid, row: nat)
    | LoseReply(p: Pid)
    | MarkSent(p: Pid)
    | Refuse(p: Pid, row: nat, now: int)

  predicate Serves(w: World, p: Pid) {
    p in w.procs && w.procs[p].Serving?
  }

  predicate InTurn(w: World, p: Pid) {
    Serves(w, p) && w.procs[p].round.Holding? && w.procs[p].turn != NoTurn
  }

  predicate BetweenTurns(w: World, p: Pid) {
    Serves(w, p) && w.procs[p].round.Holding? && w.procs[p].turn == NoTurn
  }

  predicate AtRest(w: World, p: Pid) {
    Serves(w, p) && w.procs[p].round.Idle? && w.procs[p].turn == NoTurn
  }

  predicate Known(timeline: seq<Post>, txnId: string) {
    exists post :: post in timeline && post.txnId == txnId
  }

  /** The event id the homeserver first gave this transaction. */
  function OriginalEvent(timeline: seq<Post>, txnId: string): (eventId: string)
    requires Known(timeline, txnId)
    ensures exists post :: post in timeline && post.txnId == txnId && post.eventId == eventId
  {
    if timeline[0].txnId == txnId then timeline[0].eventId
    else
      assert Known(timeline[1..], txnId) by {
        var post :| post in timeline && post.txnId == txnId;
        assert post in timeline[1..];
      }
      OriginalEvent(timeline[1..], txnId)
  }

  const ANSWER_STATUSES := ["completed", "failed", "blocked", "timeout"]

  /** Guards. A refusal may follow a message the room already has: the request arrived and
      its answer was lost or could not be read. An answer is written down (Answer) or the
      write raises (Unstored), because a text cannot be encoded or the disk is at fault; the
      status the session gave is settled in either case. The two disciplines the recovery
      story names are here: only a live claim is settled (Settle, Abort, Cancel, Fail,
      Unstored), and a batch is committed when nothing in it is left to run (Commit). */
  predicate Enabled(c: Config, w: World, l: Label) {
    match l
    case Arrive(e) => forall earlier | earlier in w.log :: earlier.eventId != e.eventId
    case Acquire(p) => p !in w.procs
    case Open(p) => p in w.procs && w.procs[p].Locked?
    case Close(p) => Serves(w, p) && w.procs[p].turn == NoTurn
    case Release(p) => p in w.procs && w.procs[p].Locked?
    case Crash(p) => p in w.procs
    case Baseline(p, from, upto, now) =>
      AtRest(w, p) && NeedsBaseline(w.disk.cursor) && from <= upto <= |w.log|
    case Sync(p, from, upto) =>
      && AtRest(w, p) && !NeedsBaseline(w.disk.cursor)
      && from <= w.disk.cursor.value.sinceToken <= upto <= |w.log|
    case Claim(p) => BetweenTurns(w, p) && w.procs[p].round.todo != []
    case Answer(p, lane, os, status, now) =>
      && InTurn(w, p) && w.procs[p].turn.Deciding?
      && lane in LANES && status in ANSWER_STATUSES && Storable(c, os)
      && (status == "timeout" ==> lane == NOTE_LANE && os != [])
    case Unstored(p, lane, os, status, fault) =>
      && InTurn(w, p) && w.procs[p].turn.Deciding?
      && lane in LANES && status in ANSWER_STATUSES && KnownStatus(status)
      && (fault || !Storable(c, os))
    case Settle(p) => InTurn(w, p) && w.procs[p].turn.Answered? && KnownStatus(w.procs[p].turn.status)
    case Abort(p) => InTurn(w, p) && w.procs[p].turn.Answered? && KnownStatus(w.procs[p].turn.status)
    case Cancel(p) => InTurn(w, p)
    case Fail(p) => InTurn(w, p) && w.procs[p].turn.Deciding?
    case Commit(p) =>
      && BetweenTurns(w, p) && w.procs[p].round.todo == []
      && w.procs[p].round.from <= w.procs[p].round.upto <= |w.log|
    case EnqueueAt(p, to, o, ordinal, now) => Serves(w, p) && Storable(c, [o])
    case Send(p, row) =>
      && Serves(w, p) && w.procs[p].reply.None?
      && row < |w.disk.outbox| && Pending(w.disk.outbox[row])
    case Deliver(q, eventId) => q in w.wire
    case Lose(q) => q in w.wire
    case Hear(p, row) =>
      && Serves(w, p) && w.procs[p].reply.None?
      && row < |w.disk.outbox| && Pending(w.disk.outbox[row]) && Known(w.timeline, w.disk.outbox[row].txnId)
    case LoseReply(p) => Serves(w, p) && w.procs[p].reply.Some?
    case MarkSent(p) => Serves(w, p) && w.procs[p].reply.Some?
    case Refuse(p, row, now) =>
      && Serves(w, p) && w.procs[p].reply.None?
      && row < |w.disk.outbox| && Pending(w.disk.outbox[row])
  }

  function Settled(w: World, p: Pid, status: string, round: Round): World
    requires InTurn(w, p) && KnownStatus(status)
  {
    var proc, key := w.procs[p], KeyOf(w.procs[p].turn.trigger);
    w.(disk := w.disk.(turns := SettledTurns(w.disk.turns, key, status)),
       procs := w.procs[p := proc.(active := proc.active - {key}, turn := NoTurn, round := round)])
  }

  function Claimed(w: World, p: Pid): World
    requires BetweenTurns(w, p) && w.procs[p].round.todo != []
  {
    var proc := w.procs[p];
    var t, rest := proc.round.todo[0], proc.round.(todo := proc.round.todo[1..]);
    if Grants(Decide(w.disk.turns, proc.active, KeyOf(t))) then
      w.(disk := w.disk.(turns := w.disk.turns[KeyOf(t) := InFlight]),
         procs := w.procs[p := proc.(active := proc.active + {KeyOf(t)}, round := rest, turn := Deciding(t))])
    else
      w.(procs := w.procs[p := proc.(round := rest)])
  }

  function RequestFor(r: OutboxRow): Request {
    Request(r.txnId, r.roomId, r.threadRoot, r.body)
  }

  /** The homeserver's rule: a transaction id it has seen changes nothing. */
  function Accepted(timeline: seq<Post>, q: Request, eventId: string): seq<Post> {
    if Known(timeline, q.txnId) then timeline
    else timeline + [Post(q.txnId, q.roomId, q.threadRoot, q.body, eventId)]
  }

  function Next(c: Config, w: World, l: Label): World
    requires Enabled(c, w, l)
  {
    match l
    case Arrive(e) => w.(log := w.log + [e])
    case Acquire(p) =>
      if w.lock.Some? then w
      else w.(lock := InstanceLock.AfterTry(w.lock, p), procs := w.procs[p := Locked])
    case Open(p) => w.(procs := w.procs[p := Serving({}, Idle, NoTurn, None)])
    case Close(p) => w.(procs := w.procs[p := Locked])
    case Release(p) => w.(lock := InstanceLock.AfterClose(w.lock, p), procs := w.procs - {p})
    case Crash(p) => w.(lock := InstanceLock.AfterClose(w.lock, p), procs := w.procs - {p})
    case Baseline(p, from, upto, now) =>
      var events := w.log[from..upto];
      w.(disk := CommitBatch(w.disk, upto, EventIds(events), NewestTs(events), Some(now)),
         baseline := Some(upto))
    case Sync(p, from, upto) =>
      var todo := Selected(w.log[from..upto], w.disk.seen, c.me, c.rooms);
      w.(procs := w.procs[p := w.procs[p].(round := Holding(from, upto, todo))])
    case Claim(p) => Claimed(w, p)
    case Answer(p, lane, os, status, now) =>
      var t := w.procs[p].turn.trigger;
      var to := Destination(t.roomId, t.threadRoot, t.eventId);
      w.(disk := w.disk.(outbox := Enqueued(w.disk.outbox, c.naming, to, os, lane, now)),
         procs := w.procs[p := w.procs[p].(turn := Answered(t, status))])
    case Unstored(p, lane, os, status, fault) => Settled(w, p, status, Leaving)
    case Settle(p) => Settled(w, p, w.procs[p].turn.status, w.procs[p].round)
    case Abort(p) => Settled(w, p, w.procs[p].turn.status, Idle)
    case Cancel(p) => Settled(w, p, "cancelled", Leaving)
    case Fail(p) => Settled(w, p, "failed", Leaving)
    case Commit(p) =>
      var r := w.procs[p].round;
      var events := w.log[r.from..r.upto];
      w.(disk := CommitBatch(w.disk, r.upto, EventIds(events), NewestTs(events), None),
         procs := w.procs[p := w.procs[p].(round := Idle)])
    case EnqueueAt(p, to, o, ordinal, now) =>
      w.(disk := w.disk.(outbox :=
           InsertOrIgnore(w.disk.outbox, RowFor(c.naming, to, o, RUN_LANE, ordinal, now))))
    case Send(p, row) => w.(wire := w.wire + multiset{RequestFor(w.disk.outbox[row])})
    case Deliver(q, eventId) => w.(timeline := Accepted(w.timeline, q, eventId), wire := w.wire - multiset{q})
    case Lose(q) => w.(wire := w.wire - multiset{q})
    case Hear(p, row) =>
      var txnId := w.disk.outbox[row].txnId;
      w.(procs := w.procs[p := w.procs[p].(reply := Some(Reply(txnId, OriginalEvent(w.timeline, txnId))))])
    case LoseReply(p) => w.(procs := w.procs[p := w.procs[p].(reply := None)])
    case MarkSent(p) =>
      var reply := w.procs[p].reply.value;
      w.(disk := w.disk.(outbox := BridgeStore.MarkSent(w.disk.outbox, reply.txnId, reply.eventId)),
         procs := w.procs[p := w.procs[p].(reply := None)])
    case Refuse(p, row, now) =>
      w.(disk := w.disk.(outbox := MarkRefused(w.disk.outbox, w.disk.outbox[row].txnId, now)))
  }

  /** Nothing has run yet; the rooms may already have a history. */
  ghost predicate Init(w: World) {
    && w.lock == None && w.procs == map[] && w.timeline == [] && w.wire == multiset{} && w.baseline == None
    && w.disk == Disk(None, [], map[], [])
    && DistinctIds(w.log)
  }

  ghost predicate DistinctIds(log: seq<RoomEvent>) {
    forall i, j | 0 <= i < j < |log| :: log[i].eventId != log[j].eventId
  }

  /** A run: consecutive worlds, each obtained by one enabled step. */
  ghost predicate IsRun(c: Config, ws: seq<World>, ls: seq<Label>) {
    && |ws| == |ls| + 1
    && Init(ws[0])
    && forall i | 0 <= i < |ls| :: Enabled(c, ws[i], ls[i]) && ws[i + 1] == Next(c, ws[i], ls[i])
  }

  // --- Invariants ---------------------------------------------------------------------

  /** Only the holder of the lock exists as a process. */
  ghost predicate LockOk(w: World) {
    w.procs.Keys == if w.lock.Some? then {w.lock.value} else {}
  }

  function Running(turn: Turn): set<TurnKey> {
    if turn.NoTurn? then {} else {KeyOf(turn.trigger)}
  }

  /** The live set names exactly the running turn, and the ledger calls it in flight. */
  ghost predicate TurnsOk(w: World) {
    forall p | p in w.procs && w.procs[p].Serving? ::
      && w.procs[p].active == Running(w.procs[p].turn)
      && (w.procs[p].turn != NoTurn ==> w.procs[p].round.Holding?)
      && (w.procs[p].turn.Answered? ==> w.procs[p].turn.status in ANSWER_STATUSES)
      && forall k | k in w.procs[p].active :: k in w.disk.turns && w.disk.turns[k].InFlight?
  }

  /** Every turn at hand or waiting was asked for by an event of the log that is addressed
      to this worker. */
  ghost predicate AskedFor(c: Config, log: seq<RoomEvent>, t: Trigger) {
    exists i :: 0 <= i < |log| && t == TriggerFor(log[i]) && Addressed(log[i], c.me, c.rooms)
  }

  ghost predicate TriggersOk(c: Config, w: World) {
    forall p | p in w.procs && w.procs[p].Serving? ::
      && (w.procs[p].turn != NoTurn ==> AskedFor(c, w.log, w.procs[p].turn.trigger))
      && (w.procs[p].round.Holding? ==> forall t | t in w.procs[p].round.todo :: AskedFor(c, w.log, t))
  }

  ghost predicate NamesOk(c: Config, w: World) {
    WellNamed(w.disk.outbox, c.naming.digest) && UniqueRows(w.disk.outbox)
  }

  ghost predicate Shows(post: Post, r: OutboxRow) {
    && post.txnId == r.txnId && post.roomId == r.roomId
    && post.threadRoot == r.threadRoot && post.body == r.body
  }

  ghost predicate Backed(post: Post, outbox: seq<OutboxRow>) {
    exists i :: 0 <= i < |outbox| && Shows(post, outbox[i])
  }

  ghost predicate Delivered(timeline: seq<Post>, txnId: string, eventId: string) {
    exists post :: post in timeline && post.txnId == txnId && post.eventId == eventId
  }

  /** Every message in a room shows a stored intent, no transaction appears twice, a row
      marked sent is in its room, and no row is marked both ways. */
  ghost predicate RoomsOk(outbox: seq<OutboxRow>, timeline: seq<Post>) {
    && (forall i, j | 0 <= i < j < |timeline| :: timeline[i].txnId != timeline[j].txnId)
    && (forall i | 0 <= i < |timeline| :: Backed(timeline[i], outbox))
    && (forall i | 0 <= i < |outbox| && outbox[i].sentEventId.Some? ::
          Delivered(timeline, outbox[i].txnId, outbox[i].sentEventId.value))
    && (forall i | 0 <= i < |outbox| && outbox[i].refusedAt.Some? :: outbox[i].sentEventId.None?)
  }

  /** Every request on its way carries a stored intent. */
  ghost predicate Carried(q: Request, outbox: seq<OutboxRow>) {
    exists i :: 0 <= i < |outbox| && q == RequestFor(outbox[i])
  }

  ghost predicate WireOk(w: World) {
    forall q | q in w.wire :: Carried(q, w.disk.outbox)
  }

  ghost predicate RepliesOk(w: World) {
    forall p | p in w.procs && w.procs[p].Serving? && w.procs[p].reply.Some? ::
      Delivered(w.timeline, w.procs[p].reply.value.txnId, w.procs[p].reply.value.eventId)
  }
}
