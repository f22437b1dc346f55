/** What the Bridge keeps on disk, one file per worker, and how each transaction
    changes it (state.py). */
module BridgeStore {
  import opened Common

  const SEEN_EVENT_LIMIT: nat := 4096

  datatype TurnState = InFlight | Interrupted | Completed | Failed | Blocked

  predicate Terminal(s: TurnState) {
    s.Completed? || s.Failed? || s.Blocked?
  }

  datatype TurnKey = TurnKey(roomId: string, threadId: string, eventId: string)

  /** Tokens are positions in the homeserver's log of room events. */
  datatype SyncCursor = SyncCursor(sinceToken: nat, baselineAt: Option<int>, watermark: int)

  datatype OutboxRow = OutboxRow(
    roomId: string,
    threadRoot: Option<string>,
    trigger: string,
    lane: string,
    ordinal: nat,
    txnId: string,
    observationId: string,
    emittedAt: int,
    kind: string,
    body: string,
    sentEventId: Option<string>,
    refusedAt: Option<int>)

  /** Rows keep the order they were inserted in; a row's index is its id. */
  datatype Disk = Disk(
    cursor: Option<SyncCursor>,
    seen: seq<string>,
    turns: map<TurnKey, TurnState>,
    outbox: seq<OutboxRow>)

  // --- The seen set -------------------------------------------------------------

  function Noted(seen: seq<string>, ids: seq<string>): seq<string> {
    if ids == [] then seen else
      var before := Noted(seen, ids[..|ids| - 1]);
      var last := ids[|ids| - 1];
      if last in before then before else before + [last]
  }

  function Newest(seen: seq<string>): seq<string> {
    if |seen| <= SEEN_EVENT_LIMIT then seen else seen[|seen| - SEEN_EVENT_LIMIT..]
  }

  function Remembered(seen: seq<string>, ids: seq<string>): seq<string> {
    if ids == [] then seen else Newest(Noted(seen, ids))
  }

  lemma {:induction false} NotedHolds(seen: seq<string>, ids: seq<string>)
    requires Distinct(seen)
    ensures Distinct(Noted(seen, ids)) && seen <= Noted(seen, ids)
    ensures forall id :: id in Noted(seen, ids) <==> id in seen || id in ids
  {
    if ids != [] {
      NotedHolds(seen, ids[..|ids| - 1]);
      assert ids == ids[..|ids| - 1] + [ids[|ids| - 1]];
    }
  }

  /** Nothing is remembered that was not committed, the bound holds, and an id just
      committed is forgotten only once that many newer ones displaced it. */
  lemma {:induction false} RememberedBounds(seen: seq<string>, ids: seq<string>)
    requires Distinct(seen) && |seen| <= SEEN_EVENT_LIMIT
    ensures Distinct(Remembered(seen, ids)) && |Remembered(seen, ids)| <= SEEN_EVENT_LIMIT
    ensures forall id | id in Remembered(seen, ids) :: id in seen || id in ids
    ensures |seen| + |ids| <= SEEN_EVENT_LIMIT ==>
              forall id | id in seen || id in ids :: id in Remembered(seen, ids)
  {
    NotedHolds(seen, ids);
    NotedSize(seen, ids);
    var noted := Noted(seen, ids);
    assert forall i | 0 <= i < |Newest(noted)| :: Newest(noted)[i] in noted;
  }

  lemma {:induction false} NotedSize(seen: seq<string>, ids: seq<string>)
    ensures |Noted(seen, ids)| <= |seen| + |ids|
  {
    if ids != [] {
      NotedSize(seen, ids[..|ids| - 1]);
    }
  }

  /** The places in a list where an id occurs that is neither in the seen set nor earlier in
      the list, in order. */
  ghost predicate FirstPlaces(seen: seq<string>, ids: seq<string>, at: seq<nat>) {
    && (forall i, j | 0 <= i < j < |at| :: at[i] < at[j])
    && (forall i | 0 <= i < |at| :: at[i] < |ids|)
    && (forall k: nat | k < |ids| :: k in at <==> ids[k] !in seen && ids[k] !in ids[..k])
  }

  ghost predicate IdsAt(ids: seq<string>, at: seq<nat>, added: seq<string>)
    requires forall i | 0 <= i < |at| :: at[i] < |ids|
  {
    |added| == |at| && forall i | 0 <= i < |added| :: added[i] == ids[at[i]]
  }

  ghost predicate NewTo(seen: seq<string>, ids: seq<string>, added: seq<string>) {
    exists at :: FirstPlaces(seen, ids, at) && IdsAt(ids, at, added)
  }

  /** Noting a list appends the ids that are new, each once, in the order they first occur. */
  lemma {:induction false} NotedAppends(seen: seq<string>, ids: seq<string>) returns (added: seq<string>)
    ensures Noted(seen, ids) == seen + added && NewTo(seen, ids, added)
  {
    if ids == [] {
      added := [];
      assert FirstPlaces(seen, ids, []) && IdsAt(ids, [], []);
    } else {
      var n := |ids| - 1;
      added := NotedAppends(seen, ids[..n]);
      added := NotedNext(seen, ids, added);
    }
  }

  lemma NotedNext(seen: seq<string>, ids: seq<string>, before: seq<string>) returns (added: seq<string>)
    requires ids != [] && Noted(seen, ids[..|ids| - 1]) == seen + before && NewTo(seen, ids[..|ids| - 1], before)
    ensures Noted(seen, ids) == seen + added && NewTo(seen, ids, added)
  {
    var n := |ids| - 1;
    added := if ids[n] in seen + before then before else before + [ids[n]];
    assert Noted(seen, ids) == seen + added;
    hide Noted, FirstPlaces, IdsAt;
    var at: seq<nat> :| FirstPlaces(seen, ids[..n], at) && IdsAt(ids[..n], at, before);
    FreshIsNew(seen, ids[..n], at, before, ids[n]);
    var more := if ids[n] in seen + before then at else at + [n];
    NextPlace(seen, ids, at, more);
    IdsNext(seen, ids, at, before);
    assert FirstPlaces(seen, ids, more) && IdsAt(ids, more, added);
  }

  lemma IdsNext(seen: seq<string>, ids: seq<string>, at: seq<nat>, before: seq<string>)
    requires ids != [] && FirstPlaces(seen, ids[..|ids| - 1], at) && IdsAt(ids[..|ids| - 1], at, before)
    ensures forall i | 0 <= i < |at| :: at[i] < |ids|
    ensures IdsAt(ids, at, before) && IdsAt(ids, at + [|ids| - 1], before + [ids[|ids| - 1]])
  {
    var n := |ids| - 1;
    forall i | 0 <= i < |at| ensures at[i] < n && ids[at[i]] == before[i] {
      assert ids[..n][at[i]] == ids[at[i]];
    }
  }

  lemma FreshIsNew(seen: seq<string>, ids: seq<string>, at: seq<nat>, added: seq<string>, id: string)
    requires FirstPlaces(seen, ids, at) && IdsAt(ids, at, added)
    ensures id in seen + added <==> id in seen || id in ids
  {
    if id in ids && id !in seen {
      var k := FirstAt(ids, id);
      assert k in at;
      var i :| 0 <= i < |at| && at[i] == k;
      assert added[i] == id;
    }
  }

  lemma {:induction false} FirstAt(ids: seq<string>, id: string) returns (k: nat)
    requires id in ids
    ensures k < |ids| && ids[k] == id && id !in ids[..k]
  {
    if ids[0] == id {
      k := 0;
    } else {
      k := FirstAt(ids[1..], id);
      k := k + 1;
      assert ids[..k] == [ids[0]] + ids[1..][..k - 1];
    }
  }

  lemma NextPlace(seen: seq<string>, ids: seq<string>, at: seq<nat>, more: seq<nat>)
    requires ids != [] && FirstPlaces(seen, ids[..|ids| - 1], at)
    requires var last := ids[|ids| - 1];
             more == if last in seen || last in ids[..|ids| - 1] then at else at + [|ids| - 1]
    ensures FirstPlaces(seen, ids, more)
  {
    var n := |ids| - 1;
    forall k: nat | k < |ids| ensures k in more <==> ids[k] !in seen && ids[k] !in ids[..k] {
      if k < n {
        assert ids[..n][k] == ids[k] && ids[..n][..k] == ids[..k];
      }
    }
  }

  /** The oldest ids are the ones let go: what is remembered is the end of what was seen
      followed by what is new, and all of it while there is room. */
  lemma RememberedIsNewest(seen: seq<string>, ids: seq<string>) returns (dropped: seq<string>, added: seq<string>)
    requires |seen| <= SEEN_EVENT_LIMIT
    ensures NewTo(seen, ids, added) && dropped + Remembered(seen, ids) == seen + added
    ensures dropped != [] ==> |Remembered(seen, ids)| == SEEN_EVENT_LIMIT
  {
    added := NotedAppends(seen, ids);
    assert Remembered(seen, ids) == Newest(Noted(seen, ids));
    hide Noted, Remembered, NewTo;
    dropped := NewestIsTheEnd(seen + added);
  }

  lemma NewestIsTheEnd(seen: seq<string>) returns (dropped: seq<string>)
    ensures dropped + Newest(seen) == seen
    ensures dropped != [] ==> |Newest(seen)| == SEEN_EVENT_LIMIT
  {
    dropped := if |seen| <= SEEN_EVENT_LIMIT then [] else seen[..|seen| - SEEN_EVENT_LIMIT];
  }

  // --- The cursor ----------------------------------------------------------------

  function Advanced(cursor: Option<SyncCursor>, next: nat, watermark: int, baselineAt: Option<int>): SyncCursor {
    match cursor
    case None => SyncCursor(next, baselineAt, watermark)
    case Some(c) => SyncCursor(
      next,
      if c.baselineAt.Some? then c.baselineAt else baselineAt,
      if c.watermark < watermark then watermark else c.watermark)
  }

  function CommitBatch(d: Disk, next: nat, ids: seq<string>, watermark: int, baselineAt: Option<int>): Disk {
    d.(seen := Remembered(d.seen, ids), cursor := Some(Advanced(d.cursor, next, watermark, baselineAt)))
  }

  // --- The outbox ------------------------------------------------------------------

  predicate SamePosition(a: OutboxRow, b: OutboxRow) {
    a.trigger == b.trigger && a.lane == b.lane && a.ordinal == b.ordinal
  }

  predicate Taken(outbox: seq<OutboxRow>, row: OutboxRow) {
    exists r :: r in outbox && (SamePosition(r, row) || r.txnId == row.txnId)
  }

  predicate Held(outbox: seq<OutboxRow>, trigger: string, lane: string, ordinal: nat) {
    exists r :: r in outbox && r.trigger == trigger && r.lane == lane && r.ordinal == ordinal
  }

  /** INSERT OR IGNORE against both unique constraints. */
  function InsertOrIgnore(outbox: seq<OutboxRow>, row: OutboxRow): seq<OutboxRow> {
    if Taken(outbox, row) then outbox else outbox + [row.(sentEventId := None, refusedAt := None)]
  }

  function InsertAll(outbox: seq<OutboxRow>, rows: seq<OutboxRow>): seq<OutboxRow> {
    if rows == [] then outbox else
      InsertOrIgnore(InsertAll(outbox, rows[..|rows| - 1]), rows[|rows| - 1])
  }

  predicate Pending(r: OutboxRow) {
    r.sentEventId.None? && r.refusedAt.None?
  }

  function Unsettled(outbox: seq<OutboxRow>): seq<OutboxRow> {
    if outbox == [] then [] else
      var last := outbox[|outbox| - 1];
      var before := Unsettled(outbox[..|outbox| - 1]);
      if Pending(last) then before + [last] else before
  }

  function ForTrigger(outbox: seq<OutboxRow>, trigger: string): seq<OutboxRow> {
    if outbox == [] then [] else
      var last := outbox[|outbox| - 1];
      var before := ForTrigger(outbox[..|outbox| - 1], trigger);
      if last.trigger == trigger then before + [last] else before
  }

  function MarkedSent(r: OutboxRow, txnId: string, eventId: string): OutboxRow {
    if r.txnId == txnId && Pending(r) then r.(sentEventId := Some(eventId)) else r
  }

  function MarkedRefused(r: OutboxRow, txnId: string, now: int): OutboxRow {
    if r.txnId == txnId && Pending(r) then r.(refusedAt := Some(now)) else r
  }

  function MarkSent(outbox: seq<OutboxRow>, txnId: string, eventId: string): seq<OutboxRow> {
    seq(|outbox|, i requires 0 <= i < |outbox| => MarkedSent(outbox[i], txnId, eventId))
  }

  function MarkRefused(outbox: seq<OutboxRow>, txnId: string, now: int): seq<OutboxRow> {
    seq(|outbox|, i requires 0 <= i < |outbox| => MarkedRefused(outbox[i], txnId, now))
  }

  /** What makes two intents at one position the same intent. */
  predicate SamePayload(a: OutboxRow, b: OutboxRow) {
    && a.roomId == b.roomId && a.threadRoot == b.threadRoot && a.txnId == b.txnId
    && a.observationId == b.observationId && a.kind == b.kind && a.body == b.body
  }

  /** The two UNIQUE constraints of the outbox table. */
  ghost predicate UniqueRows(outbox: seq<OutboxRow>) {
    forall i, j | 0 <= i < j < |outbox| ::
      !SamePosition(outbox[i], outbox[j]) && outbox[i].txnId != outbox[j].txnId
  }

  /** One row's later form: same name and message, delivery marks only ever added. */
  ghost predicate Settles(before: OutboxRow, after: OutboxRow) {
    && after == before.(sentEventId := after.sentEventId, refusedAt := after.refusedAt)
    && (before.sentEventId.Some? ==> after.sentEventId == before.sentEventId)
    && (before.refusedAt.Some? ==> after.refusedAt == before.refusedAt)
  }

  /** How an outbox may change: rows stay, in place, and new ones come after them. */
  ghost predicate Grows(before: seq<OutboxRow>, after: seq<OutboxRow>) {
    |before| <= |after| && forall i | 0 <= i < |before| :: Settles(before[i], after[i])
  }

  lemma GrowsTransitive(a: seq<OutboxRow>, b: seq<OutboxRow>, c: seq<OutboxRow>)
    requires Grows(a, b) && Grows(b, c)
    ensures Grows(a, c)
  {
    forall i | 0 <= i < |a| ensures Settles(a[i], c[i]) {
      assert Settles(a[i], b[i]) && Settles(b[i], c[i]);
    }
  }

  lemma {:induction false} InsertAllGrows(outbox: seq<OutboxRow>, rows: seq<OutboxRow>)
    ensures outbox <= InsertAll(outbox, rows)
    ensures Grows(outbox, InsertAll(outbox, rows))
    ensures UniqueRows(outbox) ==> UniqueRows(InsertAll(outbox, rows))
  {
    if rows != [] {
      InsertAllGrows(outbox, rows[..|rows| - 1]);
    }
  }

  /** Every row the new outbox adds came from the list, as an unsettled intent. */
  lemma {:induction false} InsertAllAdds(outbox: seq<OutboxRow>, rows: seq<OutboxRow>, r: OutboxRow)
    requires r in InsertAll(outbox, rows) && r !in outbox
    ensures exists row :: row in rows && r == row.(sentEventId := None, refusedAt := None)
  {
    if rows != [] {
      var front, last := rows[..|rows| - 1], rows[|rows| - 1];
      assert rows == front + [last];
      if r in InsertAll(outbox, front) {
        InsertAllAdds(outbox, front, r);
        var row :| row in front && r == row.(sentEventId := None, refusedAt := None);
        assert row in rows;
      } else {
        assert r == last.(sentEventId := None, refusedAt := None) && last in rows;
      }
    }
  }

  /** Marking settles at most the one pending row with that name. */
  lemma MarkingGrows(outbox: seq<OutboxRow>, txnId: string, eventId: string, now: int)
    ensures Grows(outbox, MarkSent(outbox, txnId, eventId))
    ensures Grows(outbox, MarkRefused(outbox, txnId, now))
    ensures UniqueRows(outbox) ==>
      UniqueRows(MarkSent(outbox, txnId, eventId)) && UniqueRows(MarkRefused(outbox, txnId, now))
  {
  }

  /** One row, the pending one of this name, has taken these marks; nothing else moved. */
  ghost predicate MarkedOnly(before: seq<OutboxRow>, after: seq<OutboxRow>, txnId: string,
                             sentEventId: Option<string>, refusedAt: Option<int>)
  {
    exists k :: 0 <= k < |before| && before[k].txnId == txnId && Pending(before[k])
                && after == before[k := before[k].(sentEventId := sentEventId, refusedAt := refusedAt)]
  }

  /** Names are unique, so marking settles exactly the pending row of that name, and does
      nothing when there is none. Afterwards no row of that name is owed. */
  lemma MarkingSettlesOne(outbox: seq<OutboxRow>, txnId: string, eventId: string, now: int)
    requires UniqueRows(outbox)
    ensures var owed := exists r :: r in outbox && r.txnId == txnId && Pending(r);
            if owed then
              && MarkedOnly(outbox, MarkSent(outbox, txnId, eventId), txnId, Some(eventId), None)
              && MarkedOnly(outbox, MarkRefused(outbox, txnId, now), txnId, None, Some(now))
            else
              MarkSent(outbox, txnId, eventId) == outbox && MarkRefused(outbox, txnId, now) == outbox
    ensures forall r | r in MarkSent(outbox, txnId, eventId) || r in MarkRefused(outbox, txnId, now) ::
              r.txnId == txnId ==> !Pending(r)
  {
    var sent, refused := MarkSent(outbox, txnId, eventId), MarkRefused(outbox, txnId, now);
    if owed :| owed in outbox && owed.txnId == txnId && Pending(owed) {
      var k :| 0 <= k < |outbox| && outbox[k] == owed;
      forall i | 0 <= i < |outbox| && i != k ensures outbox[i].txnId != txnId {
        assert i < k || k < i;
      }
      assert sent == outbox[k := outbox[k].(sentEventId := Some(eventId), refusedAt := None)];
      assert refused == outbox[k := outbox[k].(sentEventId := None, refusedAt := Some(now))];
    } else {
      forall i | 0 <= i < |outbox| ensures sent[i] == outbox[i] == refused[i] {
        assert outbox[i] in outbox;
      }
      assert sent == outbox == refused;
    }
  }

  datatype StateError = StateRefused | RowMissing

  // --- The object ------------------------------------------------------------------

  /** An open state file. Each method is one transaction. */
  class BridgeState {
    var cursor: Option<SyncCursor>
    var seen: seq<string>
    var turns: map<TurnKey, TurnState>
    var outbox: seq<OutboxRow>

    ghost function Model(): Disk
      reads this
    {
      Disk(cursor, seen, turns, outbox)
    }

    /** Opening reads back what an earlier process committed. */
    constructor (d: Disk)
      ensures Model() == d
    {
      cursor, seen, turns, outbox := d.cursor, d.seen, d.turns, d.outbox;
    }

    method Commit(next: nat, ids: seq<string>, watermark: int, baselineAt: Option<int>)
      modifies this
      ensures Model() == CommitBatch(old(Model()), next, ids, watermark, baselineAt)
    {
      if ids != [] {
        var noted := seen;
        for i := 0 to |ids|
          invariant noted == Noted(old(seen), ids[..i])
          invariant Model() == old(Model())
        {
          assert ids[..i + 1][..i] == ids[..i];
          if ids[i] !in noted {
            noted := noted + [ids[i]];
          }
        }
        assert ids[..|ids|] == ids;
        seen := if |noted| <= SEEN_EVENT_LIMIT then noted else noted[|noted| - SEEN_EVENT_LIMIT..];
      }
      cursor := Some(Advanced(cursor, next, watermark, baselineAt));
    }

    method RecordTurn(key: TurnKey, state: TurnState)
      modifies this`turns
      ensures turns == old(turns)[key := state]
    {
      turns := turns[key := state];
    }

    method ForgetTurn(key: TurnKey)
      modifies this`turns
      ensures turns == old(turns) - {key}
    {
      turns := turns - {key};
    }

    method EnqueueSends(rows: seq<OutboxRow>) returns (written: nat)
      modifies this`outbox
      ensures outbox == InsertAll(old(outbox), rows)
      ensures written == |outbox| - |old(outbox)|
    {
      var before := |outbox|;
      for i := 0 to |rows|
        invariant outbox == InsertAll(old(outbox), rows[..i])
      {
        assert rows[..i + 1][..i] == rows[..i];
        outbox := InsertOrIgnore(outbox, rows[i]);
      }
      assert rows[..|rows|] == rows;
      InsertAllGrows(old(outbox), rows);
      written := |outbox| - before;
    }

    /** The position named by the caller either takes this intent, already holds the
        same one, or refuses. A refusal leaves the file as it was. */
    method EnqueueSendAt(row: OutboxRow) returns (r: Result<bool, StateError>)
      modifies this`outbox
      ensures r.Success? ==>
        && outbox == InsertOrIgnore(old(outbox), row)
        && (exists stored :: stored in outbox && SamePosition(stored, row) && SamePayload(stored, row))
        && (r.value <==> outbox != old(outbox))
      ensures r.Failure? ==> outbox == old(outbox)
      ensures r == Failure(StateRefused) ==>
        exists stored :: stored in outbox && SamePosition(stored, row) && !SamePayload(stored, row)
      ensures r == Failure(RowMissing) <==>
        Taken(old(outbox), row) && !Held(old(outbox), row.trigger, row.lane, row.ordinal)
    {
      var at := FindPosition(row);
      if at.None? {
        if Taken(outbox, row) {
          return Failure(RowMissing);
        }
        outbox := outbox + [row.(sentEventId := None, refusedAt := None)];
        assert outbox[|outbox| - 1] in outbox;
        return Success(true);
      }
      assert outbox[at.value] in outbox;
      if !SamePayload(outbox[at.value], row) {
        return Failure(StateRefused);
      }
      r := Success(false);
    }

    method FindPosition(row: OutboxRow) returns (at: Option<nat>)
      ensures at.None? <==> !Held(outbox, row.trigger, row.lane, row.ordinal)
      ensures at.Some? ==> at.value < |outbox| && SamePosition(outbox[at.value], row)
    {
      for i := 0 to |outbox|
        invariant !Held(outbox[..i], row.trigger, row.lane, row.ordinal)
      {
        if SamePosition(outbox[i], row) {
          assert outbox[i] in outbox;
          return Some(i);
        }
      }
      assert outbox[..|outbox|] == outbox;
      at := None;
    }

    method PendingSends() returns (rows: seq<OutboxRow>)
      ensures rows == Unsettled(outbox)
    {
      rows := [];
      for i := 0 to |outbox|
        invariant rows == Unsettled(outbox[..i])
      {
        assert outbox[..i + 1][..i] == outbox[..i];
        if Pending(outbox[i]) {
          rows := rows + [outbox[i]];
        }
      }
      assert outbox[..|outbox|] == outbox;
    }

    method SendsForTrigger(trigger: string) returns (rows: seq<OutboxRow>)
      ensures rows == ForTrigger(outbox, trigger)
    {
      rows := [];
      for i := 0 to |outbox|
        invariant rows == ForTrigger(outbox[..i], trigger)
      {
        assert outbox[..i + 1][..i] == outbox[..i];
        if outbox[i].trigger == trigger {
          rows := rows + [outbox[i]];
        }
      }
      assert outbox[..|outbox|] == outbox;
    }

    method RecordSent(txnId: string, eventId: string) returns (changed: bool)
      modifies this`outbox
      ensures outbox == MarkSent(old(outbox), txnId, eventId)
      ensures changed <==> exists r :: r in old(outbox) && r.txnId == txnId && Pending(r)
      ensures UniqueRows(old(outbox)) ==>
        if changed then MarkedOnly(old(outbox), outbox, txnId, Some(eventId), None) else outbox == old(outbox)
    {
      ghost var before := outbox;
      changed := exists r :: r in outbox && r.txnId == txnId && Pending(r);
      outbox := MarkSent(outbox, txnId, eventId);
      if UniqueRows(before) {
        MarkingSettlesOne(before, txnId, eventId, 0);
      }
    }

    method RecordRefused(txnId: string, now: int) returns (changed: bool)
      modifies this`outbox
      ensures outbox == MarkRefused(old(outbox), txnId, now)
      ensures changed <==> exists r :: r in old(outbox) && r.txnId == txnId && Pending(r)
      ensures UniqueRows(old(outbox)) ==>
        if changed then MarkedOnly(old(outbox), outbox, txnId, None, Some(now)) else outbox == old(outbox)
    {
      ghost var before := outbox;
      changed := exists r :: r in outbox && r.txnId == txnId && Pending(r);
      outbox := MarkRefused(outbox, txnId, now);
      if UniqueRows(before) {
        MarkingSettlesOne(before, txnId, "", now);
      }
    }
  }
}
