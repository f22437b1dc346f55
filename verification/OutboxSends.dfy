/** Outbound intents: written down before they are sent, under derived names (outbox.py). */
module OutboxSends {
  import opened Common
  import opened BridgeStore
  import opened Names

  /** One observation, already rendered to the text a room may see. */
  datatype Observation = Observation(kind: string, body: string)

  /** Where a turn's answer goes. */
  datatype Destination = Destination(roomId: string, threadRoot: Option<string>, trigger: string)

  /** The two derivations, from material to name. */
  datatype Naming = Naming(worker: string, digest: string -> string, identify: string -> string)

  function RowFor(n: Naming, to: Destination, o: Observation, lane: string, ordinal: nat, now: int): OutboxRow {
    OutboxRow(
      to.roomId, to.threadRoot, to.trigger, lane, ordinal,
      TxnId(n.digest, to.trigger, lane, ordinal),
      n.identify(ObservationMaterial(n.worker, to.roomId, to.trigger, lane, ordinal)),
      now, o.kind, o.body, None, None)
  }

  function RowsFor(n: Naming, to: Destination, os: seq<Observation>, lane: string, now: int): seq<OutboxRow> {
    seq(|os|, i requires 0 <= i < |os| => RowFor(n, to, os[i], lane, i, now))
  }

  /** Every row sits in a declared lane under the name its position derives. */
  ghost predicate WellNamed(outbox: seq<OutboxRow>, digest: string -> string) {
    forall r | r in outbox :: r.lane in LANES && r.txnId == TxnId(digest, r.trigger, r.lane, r.ordinal)
  }

  // --- Enqueueing is a first-writer-wins merge -------------------------------------

  /** The rows whose position is still free. */
  function Missing(outbox: seq<OutboxRow>, rows: seq<OutboxRow>): seq<OutboxRow> {
    if rows == [] then [] else
      var last := rows[|rows| - 1];
      var before := Missing(outbox, rows[..|rows| - 1]);
      if Held(outbox, last.trigger, last.lane, last.ordinal) then before else before + [last]
  }

  /** Under derived names the two unique constraints refuse the same rows. */
  lemma TakenIsHeld(outbox: seq<OutboxRow>, row: OutboxRow, digest: string -> string)
    requires CollisionFree(digest) && WellNamed(outbox, digest) && WellNamed([row], digest)
    ensures Taken(outbox, row) <==> Held(outbox, row.trigger, row.lane, row.ordinal)
  {
    assert row in [row];
    forall r | r in outbox ensures SamePosition(r, row) <==> r.txnId == row.txnId {
      TxnIdInjective(digest, r.trigger, r.lane, r.ordinal, row.trigger, row.lane, row.ordinal);
    }
  }

  lemma {:induction false} MissingFrom(outbox: seq<OutboxRow>, rows: seq<OutboxRow>)
    ensures forall r | r in Missing(outbox, rows) :: r in rows
  {
    if rows != [] {
      MissingFrom(outbox, rows[..|rows| - 1]);
    }
  }

  ghost predicate OnePositionEach(rows: seq<OutboxRow>) {
    forall i, j | 0 <= i < j < |rows| :: !SamePosition(rows[i], rows[j])
  }

  ghost predicate Fresh(rows: seq<OutboxRow>) {
    forall r | r in rows :: Pending(r)
  }

  /** Inserting a list keeps the outbox as it was and appends the rows it was missing. */
  lemma {:induction false} InsertAllAppendsMissing(
      outbox: seq<OutboxRow>, rows: seq<OutboxRow>, digest: string -> string)
    requires CollisionFree(digest) && WellNamed(outbox, digest) && WellNamed(rows, digest)
    requires OnePositionEach(rows) && Fresh(rows)
    ensures InsertAll(outbox, rows) == outbox + Missing(outbox, rows)
  {
    if rows != [] {
      hide Held, Taken, TxnId;
      var front, last := rows[..|rows| - 1], rows[|rows| - 1];
      assert last in rows && rows == front + [last];
      InsertAllAppendsMissing(outbox, front, digest);
      MissingFrom(outbox, front);
      TakenIsHeld(outbox + Missing(outbox, front), last, digest);
      HeldBeyond(outbox, rows);
    }
  }

  /** The missing rows before the last one do not occupy its position. */
  lemma HeldBeyond(outbox: seq<OutboxRow>, rows: seq<OutboxRow>)
    requires rows != [] && OnePositionEach(rows)
    ensures var last := rows[|rows| - 1];
            && Held(outbox + Missing(outbox, rows[..|rows| - 1]), last.trigger, last.lane, last.ordinal)
            == Held(outbox, last.trigger, last.lane, last.ordinal)
  {
    var front, last := rows[..|rows| - 1], rows[|rows| - 1];
    MissingFrom(outbox, front);
    forall r | r in Missing(outbox, front) ensures !SamePosition(r, last) {
      var i :| 0 <= i < |front| && front[i] == r;
      assert !SamePosition(rows[i], rows[|rows| - 1]);
    }
    if Held(outbox, last.trigger, last.lane, last.ordinal) {
      var r :| r in outbox && r.trigger == last.trigger && r.lane == last.lane && r.ordinal == last.ordinal;
      assert r in outbox + Missing(outbox, front);
    }
  }

  lemma RowsForWellFormed(n: Naming, to: Destination, os: seq<Observation>, lane: string, now: int)
    requires lane in LANES
    ensures var rows := RowsFor(n, to, os, lane, now);
            WellNamed(rows, n.digest) && OnePositionEach(rows) && Fresh(rows)
  {
  }

  lemma {:induction false} AllMissing(outbox: seq<OutboxRow>, rows: seq<OutboxRow>)
    requires forall r | r in rows :: !Held(outbox, r.trigger, r.lane, r.ordinal)
    ensures Missing(outbox, rows) == rows
  {
    if rows != [] {
      var front, last := rows[..|rows| - 1], rows[|rows| - 1];
      assert last in rows && rows == front + [last];
      AllMissing(outbox, front);
    }
  }

  lemma {:induction false} NoneMissing(outbox: seq<OutboxRow>, rows: seq<OutboxRow>)
    requires forall r | r in rows :: Held(outbox, r.trigger, r.lane, r.ordinal)
    ensures Missing(outbox, rows) == []
  {
    if rows != [] {
      assert rows[|rows| - 1] in rows;
      NoneMissing(outbox, rows[..|rows| - 1]);
    }
  }

  lemma {:induction false} MissingConcat(outbox: seq<OutboxRow>, a: seq<OutboxRow>, b: seq<OutboxRow>)
    ensures Missing(outbox, a + b) == Missing(outbox, a) + Missing(outbox, b)
  {
    if b == [] {
      assert a + b == a;
    } else {
      assert (a + b)[..|a + b| - 1] == a + b[..|b| - 1];
      MissingConcat(outbox, a, b[..|b| - 1]);
    }
  }

  function Enqueued(outbox: seq<OutboxRow>, n: Naming, to: Destination, os: seq<Observation>, lane: string, now: int)
    : seq<OutboxRow>
  {
    InsertAll(outbox, RowsFor(n, to, os, lane, now))
  }

  lemma EnqueuedWellNamed(outbox: seq<OutboxRow>, n: Naming, to: Destination, os: seq<Observation>,
                          lane: string, now: int)
    requires lane in LANES && WellNamed(outbox, n.digest)
    ensures WellNamed(Enqueued(outbox, n, to, os, lane, now), n.digest)
    ensures Grows(outbox, Enqueued(outbox, n, to, os, lane, now))
  {
    var rows := RowsFor(n, to, os, lane, now);
    RowsForWellFormed(n, to, os, lane, now);
    InsertAllGrows(outbox, rows);
    forall r | r in InsertAll(outbox, rows)
      ensures r.lane in LANES && r.txnId == TxnId(n.digest, r.trigger, r.lane, r.ordinal)
    {
      if r !in outbox {
        InsertAllAdds(outbox, rows, r);
      }
    }
  }

  /** After an enqueue every position the answer has is occupied, by an old row or its own. */
  lemma EnqueuedHolds(outbox: seq<OutboxRow>, n: Naming, to: Destination, os: seq<Observation>,
                      lane: string, now: int, k: nat)
    requires CollisionFree(n.digest) && lane in LANES && WellNamed(outbox, n.digest) && k < |os|
    ensures Held(Enqueued(outbox, n, to, os, lane, now), to.trigger, lane, k)
  {
    var rows := RowsFor(n, to, os, lane, now);
    RowsForWellFormed(n, to, os, lane, now);
    InsertAllAppendsMissing(outbox, rows, n.digest);
    assert rows[k] in rows;
    if !Held(outbox, to.trigger, lane, k) {
      MissingHas(outbox, rows, rows[k]);
      assert rows[k] in outbox + Missing(outbox, rows);
    } else {
      var r :| r in outbox && r.trigger == to.trigger && r.lane == lane && r.ordinal == k;
      assert r in outbox + Missing(outbox, rows);
    }
  }

  lemma {:induction false} MissingHas(outbox: seq<OutboxRow>, rows: seq<OutboxRow>, r: OutboxRow)
    requires r in rows && !Held(outbox, r.trigger, r.lane, r.ordinal)
    ensures r in Missing(outbox, rows)
  {
    var front, last := rows[..|rows| - 1], rows[|rows| - 1];
    assert rows == front + [last];
    if r in front {
      MissingHas(outbox, front, r);
    }
  }

  // --- What a stored row says ---------------------------------------------------------

  /** The row holds this message for this destination. */
  predicate Carries(r: OutboxRow, to: Destination, o: Observation) {
    && r.trigger == to.trigger && r.roomId == to.roomId && r.threadRoot == to.threadRoot
    && r.kind == o.kind && r.body == o.body
  }

  /** A new intent for the k-th message of an answer: written now, owed, and under the names
      its place derives. */
  predicate StoredAs(r: OutboxRow, n: Naming, to: Destination, o: Observation, lane: string, k: nat, now: int) {
    && Carries(r, to, o) && r.lane == lane && r.ordinal == k && r.emittedAt == now && Pending(r)
    && r.txnId == TxnId(n.digest, to.trigger, lane, k)
    && r.observationId == n.identify(ObservationMaterial(n.worker, to.roomId, to.trigger, lane, k))
  }

  ghost predicate HoldsNew(outbox: seq<OutboxRow>, n: Naming, to: Destination, o: Observation,
                           lane: string, k: nat, now: int)
  {
    exists r :: r in outbox && StoredAs(r, n, to, o, lane, k, now)
  }

  /** An answer's message at a free position is stored as given: its own kind and text, for
      the room and thread of the destination. */
  lemma EnqueuedSays(outbox: seq<OutboxRow>, n: Naming, to: Destination, os: seq<Observation>,
                     lane: string, now: int, k: nat)
    requires CollisionFree(n.digest) && lane in LANES && WellNamed(outbox, n.digest) && k < |os|
    requires !Held(outbox, to.trigger, lane, k)
    ensures HoldsNew(Enqueued(outbox, n, to, os, lane, now), n, to, os[k], lane, k, now)
  {
    var rows := RowsFor(n, to, os, lane, now);
    RowsForWellFormed(n, to, os, lane, now);
    InsertAllAppendsMissing(outbox, rows, n.digest);
    assert rows[k] in rows;
    MissingHas(outbox, rows, rows[k]);
    assert rows[k] in outbox + Missing(outbox, rows);
    assert StoredAs(rows[k], n, to, os[k], lane, k, now);
  }

  lemma EnqueuedSaysEach(outbox: seq<OutboxRow>, n: Naming, to: Destination, os: seq<Observation>,
                         lane: string, now: int)
    requires CollisionFree(n.digest) && lane in LANES && WellNamed(outbox, n.digest)
    ensures forall k: nat | k < |os| && !Held(outbox, to.trigger, lane, k) ::
              HoldsNew(Enqueued(outbox, n, to, os, lane, now), n, to, os[k], lane, k, now)
  {
    hide Enqueued, HoldsNew;
    forall k: nat | k < |os| && !Held(outbox, to.trigger, lane, k)
      ensures HoldsNew(Enqueued(outbox, n, to, os, lane, now), n, to, os[k], lane, k, now)
    {
      EnqueuedSays(outbox, n, to, os, lane, now, k);
    }
  }

  /** The rows of an answer from a position on. */
  function From(rows: seq<OutboxRow>, k: nat): seq<OutboxRow> {
    if k <= |rows| then rows[k..] else []
  }

  /** Enqueueing xs and then ys for one trigger and lane, whatever the outbox holds: xs
      takes the positions that were free, and the replay adds only rows of its surplus tail,
      those whose position was free to begin with. The clocks may differ. */
  lemma ReplayAddsOnlyTheTail(outbox: seq<OutboxRow>, n: Naming, to: Destination,
                              xs: seq<Observation>, ys: seq<Observation>, lane: string, t1: int, t2: int)
    requires CollisionFree(n.digest) && lane in LANES && WellNamed(outbox, n.digest)
    ensures Enqueued(outbox, n, to, xs, lane, t1) == outbox + Missing(outbox, RowsFor(n, to, xs, lane, t1))
    ensures Enqueued(Enqueued(outbox, n, to, xs, lane, t1), n, to, ys, lane, t2)
         == Enqueued(outbox, n, to, xs, lane, t1) + Missing(outbox, From(RowsFor(n, to, ys, lane, t2), |xs|))
  {
    var rx, ry := RowsFor(n, to, xs, lane, t1), RowsFor(n, to, ys, lane, t2);
    var first, m := Enqueued(outbox, n, to, xs, lane, t1), if |xs| < |ys| then |xs| else |ys|;
    RowsForWellFormed(n, to, xs, lane, t1);
    InsertAllAppendsMissing(outbox, rx, n.digest);
    EnqueuedWellNamed(outbox, n, to, xs, lane, t1);
    RowsForWellFormed(n, to, ys, lane, t2);
    InsertAllAppendsMissing(first, ry, n.digest);
    OldPositionsHeld(outbox, n, to, xs, ys, lane, t1, t2, m);
    SplitMissing(first, ry, m);
    assert From(ry, |xs|) == ry[m..];
    NewPositionsAsBefore(outbox, n, to, xs, ys, lane, t1, t2, m);
    SameMissing(first, outbox, ry[m..]);
  }

  lemma OldPositionsHeld(outbox: seq<OutboxRow>, n: Naming, to: Destination, xs: seq<Observation>, ys: seq<Observation>,
                         lane: string, t1: int, t2: int, m: nat)
    requires CollisionFree(n.digest) && lane in LANES && WellNamed(outbox, n.digest)
    requires m <= |xs| && m <= |ys|
    ensures forall r | r in RowsFor(n, to, ys, lane, t2)[..m] ::
              Held(Enqueued(outbox, n, to, xs, lane, t1), r.trigger, r.lane, r.ordinal)
  {
    forall r | r in RowsFor(n, to, ys, lane, t2)[..m]
      ensures Held(Enqueued(outbox, n, to, xs, lane, t1), r.trigger, r.lane, r.ordinal)
    {
      EnqueuedHolds(outbox, n, to, xs, lane, t1, r.ordinal);
    }
  }

  lemma SplitMissing(outbox: seq<OutboxRow>, rows: seq<OutboxRow>, m: nat)
    requires m <= |rows|
    requires forall r | r in rows[..m] :: Held(outbox, r.trigger, r.lane, r.ordinal)
    ensures Missing(outbox, rows) == Missing(outbox, rows[m..])
  {
    assert rows == rows[..m] + rows[m..];
    MissingConcat(outbox, rows[..m], rows[m..]);
    NoneMissing(outbox, rows[..m]);
  }

  /** Positions past the first answer are as free or as taken as they were before it. */
  lemma NewPositionsAsBefore(outbox: seq<OutboxRow>, n: Naming, to: Destination, xs: seq<Observation>,
                             ys: seq<Observation>, lane: string, t1: int, t2: int, m: nat)
    requires CollisionFree(n.digest) && lane in LANES && WellNamed(outbox, n.digest)
    requires m <= |ys| && (m < |ys| ==> m == |xs|)
    ensures forall r | r in RowsFor(n, to, ys, lane, t2)[m..] ::
              && Held(Enqueued(outbox, n, to, xs, lane, t1), r.trigger, r.lane, r.ordinal)
              == Held(outbox, r.trigger, r.lane, r.ordinal)
  {
    var rx, ry := RowsFor(n, to, xs, lane, t1), RowsFor(n, to, ys, lane, t2);
    RowsForWellFormed(n, to, xs, lane, t1);
    InsertAllAppendsMissing(outbox, rx, n.digest);
    MissingFrom(outbox, rx);
    forall r | r in ry[m..]
      ensures Held(outbox + Missing(outbox, rx), r.trigger, r.lane, r.ordinal)
         <==> Held(outbox, r.trigger, r.lane, r.ordinal)
    {
      assert r.ordinal >= |xs|;
      HeldIn(outbox, Missing(outbox, rx), r);
    }
  }

  lemma HeldIn(outbox: seq<OutboxRow>, added: seq<OutboxRow>, r: OutboxRow)
    requires forall a | a in added :: a.ordinal < r.ordinal
    ensures Held(outbox + added, r.trigger, r.lane, r.ordinal) <==> Held(outbox, r.trigger, r.lane, r.ordinal)
  {
    if Held(outbox, r.trigger, r.lane, r.ordinal) {
      var a :| a in outbox && a.trigger == r.trigger && a.lane == r.lane && a.ordinal == r.ordinal;
      assert a in outbox + added;
    }
  }

  lemma {:induction false} SameMissing(a: seq<OutboxRow>, b: seq<OutboxRow>, rows: seq<OutboxRow>)
    requires forall r | r in rows :: Held(a, r.trigger, r.lane, r.ordinal) <==> Held(b, r.trigger, r.lane, r.ordinal)
    ensures Missing(a, rows) == Missing(b, rows)
  {
    if rows != [] {
      assert rows[|rows| - 1] in rows;
      SameMissing(a, b, rows[..|rows| - 1]);
    }
  }

  /** What is missing is what is listed at a free position. */
  lemma MissingIff(outbox: seq<OutboxRow>, rows: seq<OutboxRow>, r: OutboxRow)
    ensures r in Missing(outbox, rows) <==> r in rows && !Held(outbox, r.trigger, r.lane, r.ordinal)
  {
    MissingFrom(outbox, rows);
    if r in rows && !Held(outbox, r.trigger, r.lane, r.ordinal) {
      MissingHas(outbox, rows, r);
    }
    if r in Missing(outbox, rows) {
      MissingFree(outbox, rows);
    }
  }

  lemma {:induction false} MissingFree(outbox: seq<OutboxRow>, rows: seq<OutboxRow>)
    ensures forall r | r in Missing(outbox, rows) :: !Held(outbox, r.trigger, r.lane, r.ordinal)
  {
    if rows != [] {
      MissingFree(outbox, rows[..|rows| - 1]);
    }
  }

  /** In a lane that held nothing, that is xs as first written and then the tail of ys. */
  lemma FreshLaneReplay(outbox: seq<OutboxRow>, n: Naming, to: Destination,
                        xs: seq<Observation>, ys: seq<Observation>, lane: string, t1: int, t2: int)
    requires CollisionFree(n.digest) && lane in LANES && WellNamed(outbox, n.digest)
    requires forall k :: !Held(outbox, to.trigger, lane, k)
    ensures Enqueued(Enqueued(outbox, n, to, xs, lane, t1), n, to, ys, lane, t2)
         == outbox + RowsFor(n, to, xs, lane, t1) + From(RowsFor(n, to, ys, lane, t2), |xs|)
  {
    hide Enqueued;
    ReplayAddsOnlyTheTail(outbox, n, to, xs, ys, lane, t1, t2);
    AllMissing(outbox, RowsFor(n, to, xs, lane, t1));
    AllMissing(outbox, From(RowsFor(n, to, ys, lane, t2), |xs|));
  }

  /** Whatever the outbox holds, enqueueing an answer no longer than one already
      enqueued in that lane changes nothing: replays are no-ops. */
  lemma ReplayIsNoOp(outbox: seq<OutboxRow>, n: Naming, to: Destination,
                     xs: seq<Observation>, ys: seq<Observation>, lane: string, t1: int, t2: int)
    requires CollisionFree(n.digest) && lane in LANES && WellNamed(outbox, n.digest) && |ys| <= |xs|
    ensures var once := Enqueued(outbox, n, to, xs, lane, t1);
            Enqueued(once, n, to, ys, lane, t2) == once
  {
    var once, ry := Enqueued(outbox, n, to, xs, lane, t1), RowsFor(n, to, ys, lane, t2);
    EnqueuedWellNamed(outbox, n, to, xs, lane, t1);
    RowsForWellFormed(n, to, ys, lane, t2);
    InsertAllAppendsMissing(once, ry, n.digest);
    forall r | r in ry ensures Held(once, r.trigger, r.lane, r.ordinal) {
      EnqueuedHolds(outbox, n, to, xs, lane, t1, r.ordinal);
    }
    NoneMissing(once, ry);
  }

  function InLane(outbox: seq<OutboxRow>, trigger: string, lane: string): seq<OutboxRow> {
    if outbox == [] then [] else
      var last := outbox[|outbox| - 1];
      var before := InLane(outbox[..|outbox| - 1], trigger, lane);
      if last.trigger == trigger && last.lane == lane then before + [last] else before
  }

  /** The lanes of other triggers, and the other lanes of this one, are untouched. */
  lemma {:induction false} OtherLanesUntouched(
      outbox: seq<OutboxRow>, rows: seq<OutboxRow>, trigger: string, lane: string)
    requires forall r | r in rows :: r.trigger != trigger || r.lane != lane
    ensures InLane(InsertAll(outbox, rows), trigger, lane) == InLane(outbox, trigger, lane)
  {
    if rows != [] {
      var front, last := rows[..|rows| - 1], rows[|rows| - 1];
      assert last in rows;
      OtherLanesUntouched(outbox, front, trigger, lane);
      var before, after := InsertAll(outbox, front), InsertAll(outbox, rows);
      if before != after {
        assert after[..|after| - 1] == before;
      }
    }
  }

  /** What an enqueue returns: exactly that trigger's rows that are neither sent nor refused. */
  lemma {:induction false} OwedToTrigger(outbox: seq<OutboxRow>, trigger: string, r: OutboxRow)
    ensures r in Unsettled(ForTrigger(outbox, trigger)) <==> r in outbox && r.trigger == trigger && Pending(r)
    ensures Unsettled(ForTrigger(outbox, trigger)) == ForTrigger(Unsettled(outbox), trigger)
  {
    if outbox != [] {
      var front, last := outbox[..|outbox| - 1], outbox[|outbox| - 1];
      OwedToTrigger(front, trigger, r);
      assert outbox == front + [last];
      var kept, open := ForTrigger(front, trigger), Unsettled(front);
      assert (kept + [last])[..|kept|] == kept && (open + [last])[..|open|] == open;
    }
  }

  // --- The object -------------------------------------------------------------------

  datatype EnqueueError = UnknownLane(lane: string) | Refused(cause: StateError)

  class Outbox {
    const state: BridgeState
    const naming: Naming

    constructor (s: BridgeState, n: Naming)
      ensures state == s && naming == n
    {
      state, naming := s, n;
    }

    method Enqueue(to: Destination, os: seq<Observation>, lane: string, now: int)
      returns (r: Result<seq<OutboxRow>, EnqueueError>)
      modifies state`outbox
      ensures r.Failure? <==> lane !in LANES
      ensures lane !in LANES ==> state.outbox == old(state.outbox)
      ensures r.Success? ==>
        && state.outbox == Enqueued(old(state.outbox), naming, to, os, lane, now)
        && r.value == Unsettled(ForTrigger(state.outbox, to.trigger))
      ensures r.Success? && CollisionFree(naming.digest) && WellNamed(old(state.outbox), naming.digest) ==>
        forall k: nat | k < |os| && !Held(old(state.outbox), to.trigger, lane, k) ::
          HoldsNew(state.outbox, naming, to, os[k], lane, k, now)
    {
      if lane !in LANES {
        return Failure(UnknownLane(lane));
      }
      if CollisionFree(naming.digest) && WellNamed(state.outbox, naming.digest) {
        EnqueuedSaysEach(state.outbox, naming, to, os, lane, now);
      }
      var rows: seq<OutboxRow> := [];
      for ordinal := 0 to |os|
        invariant rows == RowsFor(naming, to, os, lane, now)[..ordinal]
        invariant state.outbox == old(state.outbox)
      {
        rows := rows + [RowFor(naming, to, os[ordinal], lane, ordinal, now)];
      }
      assert rows == RowsFor(naming, to, os, lane, now);
      var written := state.EnqueueSends(rows);
      var mine := state.SendsForTrigger(to.trigger);
      r := Success(Unsettled(mine));
    }

    method EnqueueAt(to: Destination, o: Observation, lane: string, ordinal: nat, now: int)
      returns (r: Result<seq<OutboxRow>, EnqueueError>)
      modifies state`outbox
      ensures r.Success? ==>
        && state.outbox == InsertOrIgnore(old(state.outbox), RowFor(naming, to, o, lane, ordinal, now))
        && Held(state.outbox, to.trigger, lane, ordinal)
        && r.value == Unsettled(ForTrigger(state.outbox, to.trigger))
      ensures r.Success? && !Held(old(state.outbox), to.trigger, lane, ordinal) ==>
        && |state.outbox| == |old(state.outbox)| + 1
        && StoredAs(state.outbox[|old(state.outbox)|], naming, to, o, lane, ordinal, now)
      ensures r.Success? ==>
        exists stored :: stored in state.outbox && Carries(stored, to, o)
                         && stored.lane == lane && stored.ordinal == ordinal
                         && stored.txnId == TxnId(naming.digest, to.trigger, lane, ordinal)
                         && stored.observationId
                         == naming.identify(ObservationMaterial(naming.worker, to.roomId, to.trigger, lane, ordinal))
      ensures r.Failure? ==> state.outbox == old(state.outbox)
      ensures r == Failure(UnknownLane(lane)) <==> lane !in LANES
    {
      if lane !in LANES {
        return Failure(UnknownLane(lane));
      }
      var written := state.EnqueueSendAt(RowFor(naming, to, o, lane, ordinal, now));
      if written.Failure? {
        return Failure(Refused(written.error));
      }
      var mine := state.SendsForTrigger(to.trigger);
      r := Success(Unsettled(mine));
    }

    /** Everything still owed to a room, in the order it was written. */
    method Pending() returns (rows: seq<OutboxRow>)
      ensures rows == Unsettled(state.outbox)
    {
      rows := state.PendingSends();
    }

    method MarkSent(txnId: string, eventId: string) returns (recorded: bool)
      modifies state`outbox
      ensures state.outbox == BridgeStore.MarkSent(old(state.outbox), txnId, eventId)
      ensures recorded <==> exists r :: r in Unsettled(old(state.outbox)) && r.txnId == txnId
    {
      ghost var before := state.outbox;
      forall r { OwedRows(before, r); }
      recorded := state.RecordSent(txnId, eventId);
    }

    method MarkRefused(txnId: string, now: int) returns (recorded: bool)
      modifies state`outbox
      ensures state.outbox == BridgeStore.MarkRefused(old(state.outbox), txnId, now)
      ensures recorded <==> exists r :: r in Unsettled(old(state.outbox)) && r.txnId == txnId
    {
      ghost var before := state.outbox;
      forall r { OwedRows(before, r); }
      recorded := state.RecordRefused(txnId, now);
    }
  }

  lemma {:induction false} OwedRows(outbox: seq<OutboxRow>, r: OutboxRow)
    ensures r in Unsettled(outbox) <==> r in outbox && Pending(r)
  {
    if outbox != [] {
      OwedRows(outbox[..|outbox| - 1], r);
      assert outbox == outbox[..|outbox| - 1] + [outbox[|outbox| - 1]];
    }
  }
}
