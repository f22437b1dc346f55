/** Which room events become turns, and which turns may run (inbox.py). */
module InboxTurns {
  import opened Common
  import opened BridgeStore

  datatype RoomEvent = RoomEvent(
    eventId: string,
    roomId: string,
    sender: string,
    body: string,
    originTs: int,
    threadRoot: Option<string>,
    mentionsMe: bool)

  datatype RoomBatch = RoomBatch(nextBatch: nat, events: seq<RoomEvent>)

  datatype Trigger = Trigger(
    eventId: string,
    roomId: string,
    threadId: string,
    threadRoot: Option<string>,
    sender: string,
    prompt: string,
    originTs: int)

  datatype ClaimReason = New | Reauthorized | Retry | Active | Settled

  datatype TurnClaim = TurnClaim(granted: bool, reason: ClaimReason)

  // --- Selection --------------------------------------------------------------------

  predicate Addressed(e: RoomEvent, me: string, rooms: seq<string>) {
    e.roomId in rooms && e.sender != me && e.mentionsMe
  }

  /** An empty thread root counts as none, as in the source's "or". */
  function TriggerFor(e: RoomEvent): Trigger {
    Trigger(
      e.eventId,
      e.roomId,
      if e.threadRoot.Some? && e.threadRoot.value != "" then e.threadRoot.value else e.eventId,
      e.threadRoot,
      e.sender,
      e.body,
      e.originTs)
  }

  function KeyOf(t: Trigger): TurnKey {
    TurnKey(t.roomId, t.threadId, t.eventId)
  }

  function Selected(events: seq<RoomEvent>, seen: seq<string>, me: string, rooms: seq<string>): seq<Trigger> {
    if events == [] then [] else
      var last := events[|events| - 1];
      Selected(events[..|events| - 1], seen, me, rooms)
      + if Addressed(last, me, rooms) && last.eventId !in seen then [TriggerFor(last)] else []
  }

  lemma {:induction false} SelectedIff(
      events: seq<RoomEvent>, seen: seq<string>, me: string, rooms: seq<string>, t: Trigger)
    ensures t in Selected(events, seen, me, rooms) <==>
      exists e :: e in events && Addressed(e, me, rooms) && e.eventId !in seen && t == TriggerFor(e)
  {
    if events != [] {
      var front, last := events[..|events| - 1], events[|events| - 1];
      SelectedIff(front, seen, me, rooms, t);
      assert events == front + [last];
      if t in Selected(front, seen, me, rooms) {
        var e :| e in front && Addressed(e, me, rooms) && e.eventId !in seen && t == TriggerFor(e);
        assert e in events;
      }
    }
  }

  /** The trigger asks what the event said, of the same person, in the same room and thread.
      An event outside every thread opens one under its own id. */
  predicate Asks(t: Trigger, e: RoomEvent) {
    && t.eventId == e.eventId && t.roomId == e.roomId && t.sender == e.sender
    && t.prompt == e.body && t.originTs == e.originTs && t.threadRoot == e.threadRoot
    && (if e.threadRoot in {None, Some("")} then t.threadId == e.eventId else Some(t.threadId) == e.threadRoot)
  }

  /** The positions of a batch that start a turn, in batch order: events from a confirmed
      room, by somebody else, that mention this worker and have not been seen. */
  ghost predicate Picks(events: seq<RoomEvent>, seen: seq<string>, me: string, rooms: seq<string>, at: seq<nat>) {
    && (forall i, j | 0 <= i < j < |at| :: at[i] < at[j])
    && (forall i | 0 <= i < |at| :: at[i] < |events|)
    && (forall k: nat | k < |events| ::
          && var e := events[k];
             k in at <==> e.roomId in rooms && e.sender != me && e.mentionsMe && e.eventId !in seen)
  }

  /** One trigger for each picked event. */
  ghost predicate AskEach(events: seq<RoomEvent>, at: seq<nat>, ts: seq<Trigger>)
    requires forall i | 0 <= i < |at| :: at[i] < |events|
  {
    |ts| == |at| && forall i | 0 <= i < |ts| :: Asks(ts[i], events[at[i]])
  }

  ghost predicate SelectedFrom(events: seq<RoomEvent>, seen: seq<string>, me: string, rooms: seq<string>,
                               ts: seq<Trigger>)
  {
    exists at :: Picks(events, seen, me, rooms, at) && AskEach(events, at, ts)
  }

  lemma TriggerAsks(e: RoomEvent)
    ensures Asks(TriggerFor(e), e)
  {
  }

  /** The selection is, in batch order, one trigger per unseen event addressed to this
      worker, asking what that event asks. */
  lemma {:induction false} SelectedAsks(events: seq<RoomEvent>, seen: seq<string>, me: string, rooms: seq<string>)
    ensures SelectedFrom(events, seen, me, rooms, Selected(events, seen, me, rooms))
  {
    if events == [] {
      assert Picks(events, seen, me, rooms, []) && AskEach(events, [], []);
    } else {
      var n := |events| - 1;
      var front, last := events[..n], events[n];
      SelectedAsks(front, seen, me, rooms);
      SelectedNext(events, seen, me, rooms, Selected(front, seen, me, rooms));
    }
  }

  lemma SelectedNext(events: seq<RoomEvent>, seen: seq<string>, me: string, rooms: seq<string>, before: seq<Trigger>)
    requires events != [] && before == Selected(events[..|events| - 1], seen, me, rooms)
    requires SelectedFrom(events[..|events| - 1], seen, me, rooms, before)
    ensures SelectedFrom(events, seen, me, rooms, Selected(events, seen, me, rooms))
  {
    var n, last := |events| - 1, events[|events| - 1];
    if Addressed(last, me, rooms) && last.eventId !in seen {
      assert Selected(events, seen, me, rooms) == before + [TriggerFor(last)];
      hide Selected, TriggerFor, Picks, AskEach, Addressed;
      var at: seq<nat> :| Picks(events[..n], seen, me, rooms, at) && AskEach(events[..n], at, before);
      PicksNext(events, seen, me, rooms, at, at + [n]);
      AskNext(events, at, before);
    } else {
      assert Selected(events, seen, me, rooms) == before;
      hide Selected, TriggerFor, Picks, AskEach, Addressed;
      var at: seq<nat> :| Picks(events[..n], seen, me, rooms, at) && AskEach(events[..n], at, before);
      PicksNext(events, seen, me, rooms, at, at);
      AskNext(events, at, before);
    }
  }

  lemma AskNext(events: seq<RoomEvent>, at: seq<nat>, before: seq<Trigger>)
    requires events != [] && forall i | 0 <= i < |at| :: at[i] < |events| - 1
    requires AskEach(events[..|events| - 1], at, before)
    ensures AskEach(events, at, before)
    ensures AskEach(events, at + [|events| - 1], before + [TriggerFor(events[|events| - 1])])
  {
    TriggerAsks(events[|events| - 1]);
    hide TriggerFor, Asks;
    forall i | 0 <= i < |at| ensures Asks(before[i], events[at[i]]) {
      assert events[..|events| - 1][at[i]] == events[at[i]];
    }
  }

  lemma PicksNext(events: seq<RoomEvent>, seen: seq<string>, me: string, rooms: seq<string>,
                  at: seq<nat>, more: seq<nat>)
    requires events != [] && Picks(events[..|events| - 1], seen, me, rooms, at)
    requires var last := events[|events| - 1];
             more == if Addressed(last, me, rooms) && last.eventId !in seen then at + [|events| - 1] else at
    ensures Picks(events, seen, me, rooms, more)
    ensures forall i | 0 <= i < |at| :: at[i] < |events| - 1
  {
    var n := |events| - 1;
    forall k: nat | k < |events|
      ensures && var e := events[k];
                 k in more <==> e.roomId in rooms && e.sender != me && e.mentionsMe && e.eventId !in seen
    {
      if k < n {
        assert events[..n][k] == events[k];
      }
    }
  }

  function EventIds(events: seq<RoomEvent>): seq<string> {
    seq(|events|, i requires 0 <= i < |events| => events[i].eventId)
  }

  /** The largest timestamp, or zero for an empty batch. */
  function NewestTs(events: seq<RoomEvent>): int {
    if events == [] then 0
    else if |events| == 1 then events[0].originTs
    else
      var rest := NewestTs(events[..|events| - 1]);
      var last := events[|events| - 1].originTs;
      if rest < last then last else rest
  }

  /** It is the timestamp of some event of the batch, and no event is later. */
  lemma {:induction false} NewestIsLatest(events: seq<RoomEvent>)
    requires events != []
    ensures exists e :: e in events && e.originTs == NewestTs(events)
    ensures forall e | e in events :: e.originTs <= NewestTs(events)
  {
    var front, last := events[..|events| - 1], events[|events| - 1];
    assert events == front + [last];
    assert last in events;
    if front != [] {
      NewestIsLatest(front);
      var e :| e in front && e.originTs == NewestTs(front);
      assert e in events;
    } else {
      assert events[0] == last;
    }
  }

  lemma NoneLater(events: seq<RoomEvent>)
    ensures forall e | e in events :: e.originTs <= NewestTs(events)
  {
    if events != [] {
      NewestIsLatest(events);
    }
  }

  // --- The turn ledger ----------------------------------------------------------------

  function Decide(turns: map<TurnKey, TurnState>, active: set<TurnKey>, key: TurnKey): ClaimReason {
    if key in turns && Terminal(turns[key]) then Settled
    else if key in turns && turns[key].InFlight? then (if key in active then Active else Reauthorized)
    else if key in turns && turns[key].Interrupted? then Retry
    else New
  }

  predicate Grants(reason: ClaimReason) {
    reason.New? || reason.Reauthorized? || reason.Retry?
  }

  function TerminalNamed(status: string): Option<TurnState> {
    if status == "completed" then Some(Completed)
    else if status == "failed" then Some(Failed)
    else if status == "blocked" then Some(Blocked)
    else None
  }

  predicate KnownStatus(status: string) {
    TerminalNamed(status).Some? || status in ["timeout", "cancelled", "interrupted"]
  }

  function SettledTurns(turns: map<TurnKey, TurnState>, key: TurnKey, status: string): map<TurnKey, TurnState>
    requires KnownStatus(status)
  {
    if TerminalNamed(status).Some? then turns[key := TerminalNamed(status).value]
    else if status == "timeout" then turns - {key}
    else turns[key := Interrupted]
  }

  predicate NeedsBaseline(cursor: Option<SyncCursor>) {
    cursor.None? || cursor.value.baselineAt.None?
  }

  datatype ValueError = UnknownStatus(status: string)

  class Inbox {
    const state: BridgeState
    /** Turns this process is running; never written down. */
    var active: set<TurnKey>

    constructor (s: BridgeState)
      ensures state == s && active == {}
    {
      state, active := s, {};
    }

    method IsBaseline() returns (b: bool)
      ensures b <==> NeedsBaseline(state.cursor)
    {
      b := state.cursor.None? || state.cursor.value.baselineAt.None?;
    }

    method Since() returns (token: Option<nat>)
      ensures token == if state.cursor.None? then None else Some(state.cursor.value.sinceToken)
    {
      token := if state.cursor.None? then None else Some(state.cursor.value.sinceToken);
    }

    /** Adopts the batch as the past: every event is seen, no turn is recorded. */
    method RecordBaseline(batch: RoomBatch, now: int) returns (skipped: nat)
      modifies state
      ensures state.Model() == CommitBatch(
                old(state.Model()), batch.nextBatch, EventIds(batch.events), NewestTs(batch.events), Some(now))
      ensures skipped == |batch.events|
      ensures !NeedsBaseline(state.cursor) && state.cursor.value.sinceToken == batch.nextBatch
      ensures forall e | e in batch.events :: e.originTs <= state.cursor.value.watermark
      ensures old(NeedsBaseline(state.cursor)) ==> state.cursor.value.baselineAt == Some(now)
      ensures !old(NeedsBaseline(state.cursor)) ==>
        state.cursor.value.baselineAt == old(state.cursor).value.baselineAt
    {
      NoneLater(batch.events);
      state.Commit(batch.nextBatch, EventIds(batch.events), NewestTs(batch.events), Some(now));
      skipped := |batch.events|;
    }

    method Triggers(batch: RoomBatch, me: string, rooms: seq<string>) returns (selected: seq<Trigger>)
      ensures selected == Selected(batch.events, state.seen, me, rooms)
      ensures SelectedFrom(batch.events, state.seen, me, rooms, selected)
    {
      hide SelectedFrom;
      SelectedAsks(batch.events, state.seen, me, rooms);
      selected := [];
      for i := 0 to |batch.events|
        invariant selected == Selected(batch.events[..i], state.seen, me, rooms)
      {
        var e := batch.events[i];
        assert batch.events[..i + 1][..i] == batch.events[..i];
        if !Addressed(e, me, rooms) {
          continue;
        }
        if e.eventId in state.seen {
          continue;
        }
        selected := selected + [TriggerFor(e)];
      }
      assert batch.events[..|batch.events|] == batch.events;
    }

    /** A refusal changes nothing; a grant records the attempt on disk and in memory. */
    method Claim(t: Trigger) returns (claim: TurnClaim)
      modifies this`active, state`turns
      ensures claim.reason == Decide(old(state.turns), old(active), KeyOf(t))
      ensures claim.granted <==> Grants(claim.reason)
      ensures claim.granted ==>
        active == old(active) + {KeyOf(t)} && state.turns == old(state.turns)[KeyOf(t) := InFlight]
      ensures claim.granted ==>
        && TurnKey(t.roomId, t.threadId, t.eventId) in active
        && state.turns == old(state.turns)[TurnKey(t.roomId, t.threadId, t.eventId) := InFlight]
      ensures !claim.granted ==> active == old(active) && state.turns == old(state.turns)
    {
      var key := KeyOf(t);
      var recorded := if key in state.turns then Some(state.turns[key]) else None;
      if recorded.Some? && Terminal(recorded.value) {
        return TurnClaim(false, Settled);
      }
      if recorded == Some(InFlight) && key in active {
        return TurnClaim(false, Active);
      }
      var reason: ClaimReason;
      if recorded == Some(InFlight) {
        reason := Reauthorized;
      } else if recorded == Some(Interrupted) {
        reason := Retry;
      } else {
        reason := New;
      }
      state.RecordTurn(key, InFlight);
      active := active + {key};
      claim := TurnClaim(true, reason);
    }

    /** The claim is released in every case, an unknown status included. */
    method Settle(t: Trigger, status: string) returns (r: Result<(), ValueError>)
      modifies this`active, state`turns
      ensures active == old(active) - {KeyOf(t)}
      ensures r.Success? <==> KnownStatus(status)
      ensures state.turns == if KnownStatus(status) then SettledTurns(old(state.turns), KeyOf(t), status)
                             else old(state.turns)
      ensures status == "completed" ==> state.turns == old(state.turns)[KeyOf(t) := Completed]
      ensures status == "failed" ==> state.turns == old(state.turns)[KeyOf(t) := Failed]
      ensures status == "blocked" ==> state.turns == old(state.turns)[KeyOf(t) := Blocked]
      ensures status == "timeout" ==> state.turns == old(state.turns) - {KeyOf(t)}
      ensures status in ["cancelled", "interrupted"] ==> state.turns == old(state.turns)[KeyOf(t) := Interrupted]
      ensures r.Failure? ==> r.error == UnknownStatus(status)
    {
      var key := KeyOf(t);
      active := active - {key};
      var terminal := TerminalNamed(status);
      if terminal.Some? {
        state.RecordTurn(key, terminal.value);
        return Success(());
      }
      if status !in ["timeout", "cancelled", "interrupted"] {
        return Failure(UnknownStatus(status));
      }
      if status == "timeout" {
        state.ForgetTurn(key);
        return Success(());
      }
      state.RecordTurn(key, Interrupted);
      r := Success(());
    }

    method Commit(batch: RoomBatch)
      modifies state
      ensures state.Model() == CommitBatch(
                old(state.Model()), batch.nextBatch, EventIds(batch.events), NewestTs(batch.events), None)
      ensures state.cursor.Some? && state.cursor.value.sinceToken == batch.nextBatch
      ensures NeedsBaseline(state.cursor) <==> old(NeedsBaseline(state.cursor))
      ensures forall e | e in batch.events :: e.originTs <= state.cursor.value.watermark
      ensures old(state.cursor).Some? ==> old(state.cursor).value.watermark <= state.cursor.value.watermark
    {
      NoneLater(batch.events);
      state.Commit(batch.nextBatch, EventIds(batch.events), NewestTs(batch.events), None);
    }
  }
}

/** The ledger over any sequence of claims, settlements and restarts, with any number of
    turns live at once. A claim may be made for any turn at any time, so nothing here relies
    on what the bounded seen set remembers or evicts. */
module TurnLedger {
  import opened Common
  import opened BridgeStore
  import opened InboxTurns

  datatype Ledger = Ledger(turns: map<TurnKey, TurnState>, active: set<TurnKey>)

  datatype Op =
    | Claim(key: TurnKey)
    | Settle(key: TurnKey, status: string)
    | Crash

  /** The discipline of the callers: only a live claim is settled, with a known status. */
  predicate Allowed(l: Ledger, op: Op) {
    op.Settle? ==> op.key in l.active && KnownStatus(op.status)
  }

  predicate Granted(l: Ledger, key: TurnKey) {
    Grants(Decide(l.turns, l.active, key))
  }

  function Apply(l: Ledger, op: Op): Ledger
    requires Allowed(l, op)
  {
    match op
    case Claim(key) =>
      if Granted(l, key) then l.(turns := l.turns[key := InFlight], active := l.active + {key}) else l
    case Settle(key, status) =>
      l.(turns := SettledTurns(l.turns, key, status), active := l.active - {key})
    case Crash => l.(active := {})
  }

  ghost predicate IsHistory(ls: seq<Ledger>, ops: seq<Op>) {
    && |ls| == |ops| + 1
    && ls[0].turns == map[] && ls[0].active == {}
    && forall i | 0 <= i < |ops| :: Allowed(ls[i], ops[i]) && ls[i + 1] == Apply(ls[i], ops[i])
  }

  ghost predicate LiveIsInFlight(l: Ledger) {
    forall key | key in l.active :: key in l.turns && l.turns[key].InFlight?
  }

  lemma {:induction false} LiveKeysInFlight(ls: seq<Ledger>, ops: seq<Op>, i: nat)
    requires IsHistory(ls, ops) && i < |ls|
    ensures LiveIsInFlight(ls[i])
  {
    if i > 0 {
      LiveKeysInFlight(ls, ops, i - 1);
      assert ls[i - 1 + 1] == Apply(ls[i - 1], ops[i - 1]);
    }
  }

  predicate Done(l: Ledger, key: TurnKey) {
    key in l.turns && Terminal(l.turns[key])
  }

  /** Once settled for good, a turn keeps its outcome and is refused at every later claim. */
  lemma {:induction false} TerminalForever(ls: seq<Ledger>, ops: seq<Op>, i: nat, j: nat, key: TurnKey)
    requires IsHistory(ls, ops) && i <= j < |ls| && Done(ls[i], key)
    ensures Done(ls[j], key) && ls[j].turns[key] == ls[i].turns[key]
    ensures Decide(ls[j].turns, ls[j].active, key) == Settled
  {
    if i < j {
      TerminalForever(ls, ops, i, j - 1, key);
      LiveKeysInFlight(ls, ops, j - 1);
      assert ls[j - 1 + 1] == Apply(ls[j - 1], ops[j - 1]);
    }
  }

  /** A claim is refused exactly when the turn is over for good or running here. */
  lemma RefusedIff(ls: seq<Ledger>, ops: seq<Op>, i: nat, key: TurnKey)
    requires IsHistory(ls, ops) && i < |ls|
    ensures !Granted(ls[i], key) <==> Done(ls[i], key) || key in ls[i].active
  {
    LiveKeysInFlight(ls, ops, i);
  }

  /** Running out of time, being cancelled or losing the process leaves a live turn
      claimable at once, and the claim says which of the three it was. */
  lemma AnswerableAgain(ls: seq<Ledger>, ops: seq<Op>, i: nat, key: TurnKey)
    requires IsHistory(ls, ops) && i < |ops| && key in ls[i].active
    ensures ops[i] == Settle(key, "timeout") ==> Decide(ls[i + 1].turns, ls[i + 1].active, key) == New
    ensures ops[i] == Settle(key, "cancelled") ==> Decide(ls[i + 1].turns, ls[i + 1].active, key) == Retry
    ensures ops[i] == Crash ==> Decide(ls[i + 1].turns, ls[i + 1].active, key) == Reauthorized
  {
    LiveKeysInFlight(ls, ops, i);
    assert ls[i + 1] == Apply(ls[i], ops[i]);
  }
}
