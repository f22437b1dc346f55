/** The durable names of a room message: transaction id and observation id (outbox.py). */
module Names {
  import opened Common

  const TURN_LANE := "turn"
  const NOTE_LANE := "note"
  const RUN_LANE := "run"
  const LANES := [TURN_LANE, NOTE_LANE, RUN_LANE]
  const SEPARATOR := '\U{1F}'
  const TXN_PREFIX := "rmb-"

  function Digit(n: nat): char
    requires n < 10
  {
    '0' + n as char
  }

  function Decimal(n: nat): string {
    if n < 10 then [Digit(n)] else Decimal(n / 10) + [Digit(n % 10)]
  }

  lemma {:induction false} DecimalDigits(n: nat)
    ensures Decimal(n) != [] && forall c | c in Decimal(n) :: '0' <= c <= '9'
  {
    if n >= 10 {
      DecimalDigits(n / 10);
    }
  }

  lemma {:induction false} DecimalInjective(m: nat, n: nat)
    requires Decimal(m) == Decimal(n)
    ensures m == n
  {
    DecimalDigits(m / 10);
    DecimalDigits(n / 10);
    var s := Decimal(m);
    assert s[|s| - 1] == Digit(m % 10) == Digit(n % 10);
    if m >= 10 && n >= 10 {
      assert Decimal(m / 10) == s[..|s| - 1] == Decimal(n / 10);
      DecimalInjective(m / 10, n / 10);
    }
  }

  // --- Transaction ids --------------------------------------------------------

  function TxnMaterial(event: string, lane: string, ordinal: nat): string {
    event + [SEPARATOR] + lane + [SEPARATOR] + Decimal(ordinal)
  }

  /** Names a digest that tells all materials apart; the real one is a truncated SHA-256. */
  ghost predicate CollisionFree(digest: string -> string) {
    forall a, b :: digest(a) == digest(b) ==> a == b
  }

  function TxnId(digest: string -> string, event: string, lane: string, ordinal: nat): string {
    TXN_PREFIX + digest(TxnMaterial(event, lane, ordinal))
  }

  lemma LanesAreClean(lane: string)
    requires lane in LANES
    ensures SEPARATOR !in lane && '|' !in lane
  {
    assert lane == TURN_LANE || lane == NOTE_LANE || lane == RUN_LANE;
  }

  /** No event id can spell another message's material, whatever characters it holds. */
  lemma {:induction false} TxnMaterialInjective(e1: string, l1: string, o1: nat, e2: string, l2: string, o2: nat)
    requires l1 in LANES && l2 in LANES
    requires TxnMaterial(e1, l1, o1) == TxnMaterial(e2, l2, o2)
    ensures e1 == e2 && l1 == l2 && o1 == o2
  {
    DecimalDigits(o1);
    DecimalDigits(o2);
    LanesAreClean(l1);
    LanesAreClean(l2);
    assert TxnMaterial(e1, l1, o1) == (e1 + [SEPARATOR] + l1) + [SEPARATOR] + Decimal(o1);
    assert TxnMaterial(e2, l2, o2) == (e2 + [SEPARATOR] + l2) + [SEPARATOR] + Decimal(o2);
    LastSplitUnique(e1 + [SEPARATOR] + l1, Decimal(o1), e2 + [SEPARATOR] + l2, Decimal(o2), SEPARATOR);
    LastSplitUnique(e1, l1, e2, l2, SEPARATOR);
    DecimalInjective(o1, o2);
  }

  lemma TxnIdInjective(digest: string -> string, e1: string, l1: string, o1: nat, e2: string, l2: string, o2: nat)
    requires CollisionFree(digest) && l1 in LANES && l2 in LANES
    ensures TxnId(digest, e1, l1, o1) == TxnId(digest, e2, l2, o2) <==> e1 == e2 && l1 == l2 && o1 == o2
  {
    if TxnId(digest, e1, l1, o1) == TxnId(digest, e2, l2, o2) {
      var a, b := digest(TxnMaterial(e1, l1, o1)), digest(TxnMaterial(e2, l2, o2));
      assert a == (TXN_PREFIX + a)[|TXN_PREFIX|..] == (TXN_PREFIX + b)[|TXN_PREFIX|..] == b;
      TxnMaterialInjective(e1, l1, o1, e2, l2, o2);
    }
  }

  // --- Observation ids --------------------------------------------------------

  function ObservationMaterial(worker: string, room: string, event: string, lane: string, ordinal: nat): string {
    worker + "|" + room + "|" + event + "|" + lane + "|" + Decimal(ordinal)
  }

  /** Two observations share a name exactly when they agree on worker, lane and
      position and their room and event ids run together to the same text. */
  lemma {:induction false} ObservationMaterialCollides(
      w1: string, r1: string, e1: string, l1: string, o1: nat,
      w2: string, r2: string, e2: string, l2: string, o2: nat)
    requires l1 in LANES && l2 in LANES && '|' !in w1 && '|' !in w2
    ensures ObservationMaterial(w1, r1, e1, l1, o1) == ObservationMaterial(w2, r2, e2, l2, o2)
       <==> w1 == w2 && l1 == l2 && o1 == o2 && r1 + "|" + e1 == r2 + "|" + e2
  {
    var m1, m2 := ObservationMaterial(w1, r1, e1, l1, o1), ObservationMaterial(w2, r2, e2, l2, o2);
    var a1, a2 := w1 + ['|'] + (r1 + "|" + e1), w2 + ['|'] + (r2 + "|" + e2);
    assert m1 == (a1 + ['|'] + l1) + ['|'] + Decimal(o1);
    assert m2 == (a2 + ['|'] + l2) + ['|'] + Decimal(o2);
    if m1 == m2 {
      DecimalDigits(o1);
      DecimalDigits(o2);
      LanesAreClean(l1);
      LanesAreClean(l2);
      LastSplitUnique(a1 + ['|'] + l1, Decimal(o1), a2 + ['|'] + l2, Decimal(o2), '|');
      LastSplitUnique(a1, l1, a2, l2, '|');
      FirstSplitUnique(w1, r1 + "|" + e1, w2, r2 + "|" + e2, '|');
      DecimalInjective(o1, o2);
    }
  }

  lemma ObservationMaterialInjective(
      w1: string, r1: string, e1: string, l1: string, o1: nat,
      w2: string, r2: string, e2: string, l2: string, o2: nat)
    requires l1 in LANES && l2 in LANES && '|' !in w1 && '|' !in w2
    requires '|' !in e1 && '|' !in e2
    requires ObservationMaterial(w1, r1, e1, l1, o1) == ObservationMaterial(w2, r2, e2, l2, o2)
    ensures w1 == w2 && r1 == r2 && e1 == e2 && l1 == l2 && o1 == o2
  {
    ObservationMaterialCollides(w1, r1, e1, l1, o1, w2, r2, e2, l2, o2);
    assert r1 + "|" + e1 == r1 + ['|'] + e1 && r2 + "|" + e2 == r2 + ['|'] + e2;
    LastSplitUnique(r1, e1, r2, e2, '|');
  }

  /** With the separator inside an event id, two different messages can share a name. */
  lemma ObservationNamesCanCollide(worker: string, lane: string)
    ensures ObservationMaterial(worker, "!a:x", "b|c", lane, 0) == ObservationMaterial(worker, "!a:x|b", "c", lane, 0)
  {
    assert "!a:x" + "|" + "b|c" == "!a:x|b" + "|" + "c";
    var tail := "|" + lane + "|" + Decimal(0);
    assert ObservationMaterial(worker, "!a:x", "b|c", lane, 0) == worker + "|" + ("!a:x" + "|" + "b|c") + tail;
    assert ObservationMaterial(worker, "!a:x|b", "c", lane, 0) == worker + "|" + ("!a:x|b" + "|" + "c") + tail;
  }
}
