/** Scoring of discovery predictions, in exact arithmetic (scoring.py). */
module Scoring {
  import opened Common

  const WEIGHT_DIRECT := 0.6
  const WEIGHT_PROPAGATED := 0.2
  const WEIGHT_CONTEXT := 0.2
  const EPS := 0.000000001
  const DIFFICULTY_ORDER := ["easy", "medium", "hard"]

  datatype Truth = Truth(direct: seq<string>, propagated: seq<string>, context: seq<string>)

  /** The lists of a report are kept as the sets they print in sorted order. */
  datatype Metrics = Metrics(
    directRecall: real, propagatedRecall: real, contextRecall: real,
    recall: real, precision: real, f1: real,
    predicted: set<string>, missedDirect: set<string>, missedPropagated: set<string>, extra: set<string>)

  function SafeRatio(hit: nat, total: nat): real {
    if total == 0 then 1.0 else hit as real / total as real
  }

  function F1(precision: real, recall: real): real {
    if precision + recall <= EPS then 0.0 else 2.0 * precision * recall / (precision + recall)
  }

  function AllTruth(t: Truth): set<string> {
    SetOf(t.direct) + SetOf(t.propagated) + SetOf(t.context)
  }

  function TierRecall(predicted: set<string>, tier: seq<string>): real {
    SafeRatio(|predicted * SetOf(tier)|, |SetOf(tier)|)
  }

  function Recall(predicted: set<string>, t: Truth): real {
    WEIGHT_DIRECT * TierRecall(predicted, t.direct)
    + WEIGHT_PROPAGATED * TierRecall(predicted, t.propagated)
    + WEIGHT_CONTEXT * TierRecall(predicted, t.context)
  }

  function Precision(predicted: set<string>, t: Truth): real {
    if predicted == {} then 0.0 else |predicted * AllTruth(t)| as real / |predicted| as real
  }

  function ScoreCase(predicted: seq<string>, t: Truth): Metrics {
    var p := SetOf(predicted);
    Metrics(TierRecall(p, t.direct), TierRecall(p, t.propagated), TierRecall(p, t.context),
            Recall(p, t), Precision(p, t), F1(Precision(p, t), Recall(p, t)),
            p, SetOf(t.direct) - p, SetOf(t.propagated) - p, p - AllTruth(t))
  }

  // --- Ratios ------------------------------------------------------------------------

  lemma Quotient(a: real, b: real, c: real)
    requires b > 0.0
    ensures a / b <= c <==> a <= c * b
    ensures a / b >= c <==> a >= c * b
  {
    var q := a / b;
    assert q * b == a;
    if q <= c { assert q * b <= c * b; } else { assert q * b > c * b; }
    if q >= c { assert q * b >= c * b; } else { assert q * b < c * b; }
  }

  lemma RatioBounds(hit: nat, total: nat)
    requires hit <= total
    ensures 0.0 <= SafeRatio(hit, total) <= 1.0
    ensures SafeRatio(hit, total) == 1.0 <==> hit == total
  {
    if total > 0 {
      Quotient(hit as real, total as real, 0.0);
      Quotient(hit as real, total as real, 1.0);
    }
  }

  lemma RatioMonotone(hit: nat, more: nat, total: nat)
    requires hit <= more <= total
    ensures SafeRatio(hit, total) <= SafeRatio(more, total)
  {
    if total > 0 {
      var c := more as real / total as real;
      assert c * total as real == more as real;
      Quotient(hit as real, total as real, c);
    }
  }

  lemma TierBounds(predicted: set<string>, tier: seq<string>)
    ensures |predicted * SetOf(tier)| <= |SetOf(tier)|
    ensures 0.0 <= TierRecall(predicted, tier) <= 1.0
    ensures TierRecall(predicted, tier) == 1.0 <==> SetOf(tier) <= predicted
  {
    SubsetSize(predicted * SetOf(tier), SetOf(tier));
    RatioBounds(|predicted * SetOf(tier)|, |SetOf(tier)|);
    if SetOf(tier) <= predicted {
      assert predicted * SetOf(tier) == SetOf(tier);
    }
  }

  lemma PrecisionBounds(predicted: set<string>, t: Truth)
    ensures 0.0 <= Precision(predicted, t) <= 1.0
    ensures Precision(predicted, t) == 1.0 <==> predicted != {} && predicted <= AllTruth(t)
  {
    var hits := predicted * AllTruth(t);
    SubsetSize(hits, predicted);
    if predicted != {} {
      assert |predicted| > 0;
      RatioBounds(|hits|, |predicted|);
      if predicted <= AllTruth(t) {
        assert hits == predicted;
      }
    }
  }

  /** Above the cut the harmonic mean lies between its arguments. */
  lemma F1Between(p: real, r: real)
    requires 0.0 <= p && 0.0 <= r && p + r > EPS
    ensures (if p < r then p else r) <= F1(p, r) <= (if p < r then r else p)
  {
    if p < r {
      Squeeze(p, r);
    } else {
      Squeeze(r, p);
      assert 2.0 * r * p == 2.0 * p * r;
    }
  }

  lemma Squeeze(lo: real, hi: real)
    requires 0.0 <= lo <= hi && lo + hi > 0.0
    ensures lo <= 2.0 * lo * hi / (lo + hi) <= hi
  {
    Quotient(2.0 * lo * hi, lo + hi, lo);
    Quotient(2.0 * lo * hi, lo + hi, hi);
    var d := hi - lo;
    assert 2.0 * lo * hi - lo * (lo + hi) == lo * d;
    assert hi * (lo + hi) - 2.0 * lo * hi == hi * d;
    assert lo * d >= 0.0 && hi * d >= 0.0;
  }

  lemma CrossDivide(a: real, b: real, c: real, d: real)
    requires b > 0.0 && d > 0.0 && a * d <= c * b
    ensures a / b <= c / d
  {
    var y := c / d;
    assert y * d == c;
    Quotient(a, b, y);
    assert (y * b) * d == c * b;
    Quotient(a * d, d, y * b);
    assert a * d / d == a;
  }

  lemma F1Symmetric(p: real, r: real)
    ensures F1(p, r) == F1(r, p)
  {
    assert 2.0 * p * r == 2.0 * r * p;
  }

  lemma F1Grows(p: real, q: real, r: real)
    requires 0.0 <= p <= q && 0.0 <= r
    ensures F1(p, r) <= F1(q, r) && F1(r, p) <= F1(r, q)
  {
    hide F1;
    F1Symmetric(p, r);
    F1Symmetric(q, r);
    if p + r > EPS {
      F1GrowsAbove(p, q, r);
    } else {
      F1GrowsBelow(p, q, r);
    }
  }

  lemma F1GrowsAbove(p: real, q: real, r: real)
    requires 0.0 <= p <= q && 0.0 <= r && p + r > EPS
    ensures F1(p, r) <= F1(q, r)
  {
    CrossTerms(p, q, r);
    var a, b, c, d := 2.0 * p * r, p + r, 2.0 * q * r, q + r;
    assert F1(p, r) == a / b && F1(q, r) == c / d && a * d <= c * b;
    hide F1;
    CrossDivide(a, b, c, d);
  }

  lemma F1GrowsBelow(p: real, q: real, r: real)
    requires 0.0 <= p <= q && 0.0 <= r && p + r <= EPS
    ensures F1(p, r) <= F1(q, r)
  {
    assert F1(p, r) == 0.0;
    assert q + r <= EPS ==> F1(q, r) == 0.0;
    hide F1;
    if q + r > EPS {
      F1Between(q, r);
    }
  }

  lemma CrossTerms(p: real, q: real, r: real)
    requires 0.0 <= p <= q && 0.0 <= r
    ensures 2.0 * p * r * (q + r) <= 2.0 * q * r * (p + r)
  {
    var d, rr := q - p, r * r;
    assert rr >= 0.0 && rr * d >= 0.0;
    assert 2.0 * q * r * (p + r) - 2.0 * p * r * (q + r) == 2.0 * rr * d;
  }

  /** Every metric of every case is a fraction, and F1 is squeezed between the other two. */
  lemma MetricsAreFractions(predicted: seq<string>, t: Truth)
    ensures var m := ScoreCase(predicted, t);
      && 0.0 <= m.directRecall <= 1.0 && 0.0 <= m.propagatedRecall <= 1.0 && 0.0 <= m.contextRecall <= 1.0
      && 0.0 <= m.recall <= 1.0 && 0.0 <= m.precision <= 1.0 && 0.0 <= m.f1 <= 1.0
      && (m.precision + m.recall > EPS ==>
            (if m.precision < m.recall then m.precision else m.recall) <= m.f1
            <= (if m.precision < m.recall then m.recall else m.precision))
  {
    var p := SetOf(predicted);
    TierBounds(p, t.direct);
    TierBounds(p, t.propagated);
    TierBounds(p, t.context);
    PrecisionBounds(p, t);
    var m := ScoreCase(predicted, t);
    if m.precision + m.recall > EPS {
      F1Between(m.precision, m.recall);
    }
  }

  /** Full marks mean exactly what they should. */
  lemma PerfectScores(predicted: seq<string>, t: Truth)
    ensures ScoreCase(predicted, t).recall == 1.0 <==> AllTruth(t) <= SetOf(predicted)
    ensures ScoreCase(predicted, t).precision == 1.0 <==> predicted != [] && SetOf(predicted) <= AllTruth(t)
  {
    var p := SetOf(predicted);
    TierBounds(p, t.direct);
    TierBounds(p, t.propagated);
    TierBounds(p, t.context);
    PrecisionBounds(p, t);
    if predicted != [] { assert predicted[0] in p; }
  }

  /** The lists beside the scores explain them: nothing missed is full tier recall, and
      nothing extra is full precision. */
  lemma MissesExplainScores(predicted: seq<string>, t: Truth)
    ensures var m := ScoreCase(predicted, t);
      && (m.missedDirect == {} <==> m.directRecall == 1.0)
      && (m.missedPropagated == {} <==> m.propagatedRecall == 1.0)
      && (predicted != [] ==> (m.extra == {} <==> m.precision == 1.0))
      && m.predicted == m.extra + m.predicted * AllTruth(t)
  {
    var p := SetOf(predicted);
    TierBounds(p, t.direct);
    TierBounds(p, t.propagated);
    NothingLeft(SetOf(t.direct), p);
    NothingLeft(SetOf(t.propagated), p);
    NothingLeft(p, AllTruth(t));
    PrecisionBounds(p, t);
    if predicted != [] { assert predicted[0] in p; }
  }

  lemma NothingLeft(a: set<string>, b: set<string>)
    ensures a - b == {} <==> a <= b
  {
    forall x | x in a && a - b == {} ensures x in b {
      assert x !in a - b;
    }
  }

  // --- The figures, from hits and sizes --------------------------------------------------

  /** The figure is this share of the whole; of an empty whole it is everything. */
  predicate ShareOf(figure: real, hits: nat, total: nat) {
    if total == 0 then figure == 1.0 else figure * total as real == hits as real
  }

  lemma RatioIsShare(hits: nat, total: nat)
    ensures ShareOf(SafeRatio(hits, total), hits, total)
  {
    if total > 0 {
      assert hits as real / total as real * total as real == hits as real;
    }
  }

  lemma TierIsShare(p: set<string>, tier: seq<string>)
    ensures ShareOf(TierRecall(p, tier), |p * SetOf(tier)|, |SetOf(tier)|)
  {
    RatioIsShare(|p * SetOf(tier)|, |SetOf(tier)|);
  }

  /** Each tier's recall is its share of hits; three fifths of the overall recall come from
      the direct tier and one fifth from either other. */
  lemma RecallFromHits(predicted: seq<string>, t: Truth)
    ensures var m, p := ScoreCase(predicted, t), SetOf(predicted);
      && ShareOf(m.directRecall, |p * SetOf(t.direct)|, |SetOf(t.direct)|)
      && ShareOf(m.propagatedRecall, |p * SetOf(t.propagated)|, |SetOf(t.propagated)|)
      && ShareOf(m.contextRecall, |p * SetOf(t.context)|, |SetOf(t.context)|)
      && 5.0 * m.recall == 3.0 * m.directRecall + m.propagatedRecall + m.contextRecall
  {
    var p := SetOf(predicted);
    TierIsShare(p, t.direct);
    TierIsShare(p, t.propagated);
    TierIsShare(p, t.context);
    hide TierRecall, ShareOf, Precision, F1;
  }

  /** Precision is the share of the prediction that is in some tier, none of an empty one,
      and F1 is the harmonic mean of precision and recall. */
  lemma PrecisionFromHits(predicted: seq<string>, t: Truth)
    ensures var m, p := ScoreCase(predicted, t), SetOf(predicted);
      && (if p == {} then m.precision == 0.0
          else ShareOf(m.precision, |p * SetOf(t.direct + t.propagated + t.context)|, |p|))
      && HarmonicMean(m.f1, m.precision, m.recall)
  {
    var p := SetOf(predicted);
    hide Precision, F1, Recall, ShareOf, HarmonicMean;
    F1IsHarmonic(Precision(p, t), Recall(p, t));
    PrecisionIsShare(p, t);
  }

  /** Of two figures that are not both next to nothing. */
  predicate HarmonicMean(f: real, p: real, r: real) {
    if p + r > EPS then f * (p + r) == 2.0 * p * r else f == 0.0
  }

  lemma PrecisionIsShare(p: set<string>, t: Truth)
    ensures if p == {} then Precision(p, t) == 0.0
            else ShareOf(Precision(p, t), |p * SetOf(t.direct + t.propagated + t.context)|, |p|)
  {
    assert SetOf(t.direct + t.propagated + t.context) == AllTruth(t);
    if p != {} {
      assert |p| > 0;
      RatioIsShare(|p * AllTruth(t)|, |p|);
    }
  }

  lemma F1IsHarmonic(p: real, r: real)
    ensures HarmonicMean(F1(p, r), p, r)
  {
    if p + r > EPS {
      assert 2.0 * p * r / (p + r) * (p + r) == 2.0 * p * r;
    }
  }

  /** What is listed as missed or extra. */
  lemma ListsSay(predicted: seq<string>, t: Truth, x: string)
    ensures var m := ScoreCase(predicted, t);
      && (x in m.predicted <==> x in predicted)
      && (x in m.missedDirect <==> x in t.direct && x !in predicted)
      && (x in m.missedPropagated <==> x in t.propagated && x !in predicted)
      && (x in m.extra <==> x in predicted && x !in t.direct && x !in t.propagated && x !in t.context)
  {
  }

  // --- Changing one prediction ---------------------------------------------------------

  lemma TierGrows(p: set<string>, x: string, tier: seq<string>)
    ensures TierRecall(p, tier) <= TierRecall(p + {x}, tier)
    ensures x !in tier ==> TierRecall(p + {x}, tier) == TierRecall(p, tier)
  {
    var a, b := p * SetOf(tier), (p + {x}) * SetOf(tier);
    SubsetSize(a, b);
    SubsetSize(b, SetOf(tier));
    RatioMonotone(|a|, |b|, |SetOf(tier)|);
    if x !in tier {
      assert a == b;
    }
  }

  lemma FractionGains(h: nat, n: nat)
    requires h <= n && n > 0
    ensures h as real / n as real <= (h + 1) as real / (n + 1) as real
    ensures h as real / (n + 1) as real <= h as real / n as real
  {
    var a, b := h as real / n as real, (h + 1) as real / (n + 1) as real;
    assert b * (n + 1) as real == (h + 1) as real && a * n as real == h as real;
    RatioBounds(h, n);
    Quotient((h + 1) as real, (n + 1) as real, a);
    assert a * (n + 1) as real == h as real + a;
    Quotient(h as real, (n + 1) as real, a);
  }

  lemma PrecisionGains(p: set<string>, x: string, t: Truth)
    requires x !in p && x in AllTruth(t)
    ensures Precision(p, t) <= Precision(p + {x}, t)
  {
    var hits := p * AllTruth(t);
    PrecisionBounds(p + {x}, t);
    assert (p + {x}) * AllTruth(t) == hits + {x};
    assert x !in hits && |hits + {x}| == |hits| + 1 && |p + {x}| == |p| + 1;
    if p != {} {
      SubsetSize(hits, p);
      FractionGains(|hits|, |p|);
    }
  }

  lemma PrecisionLoses(p: set<string>, x: string, t: Truth)
    requires x !in p && x !in AllTruth(t)
    ensures Precision(p + {x}, t) <= Precision(p, t)
  {
    var hits := p * AllTruth(t);
    assert (p + {x}) * AllTruth(t) == hits;
    assert |p + {x}| == |p| + 1;
    if p != {} {
      SubsetSize(hits, p);
      FractionGains(|hits|, |p|);
    } else {
      assert hits == {};
      assert |hits| as real / |p + {x}| as real == 0.0;
    }
  }

  /** Predicting one more repository that matters never costs anything. */
  lemma RelevantNeverHurts(predicted: seq<string>, x: string, t: Truth)
    requires x in AllTruth(t)
    ensures var before, after := ScoreCase(predicted, t), ScoreCase(predicted + [x], t);
            before.recall <= after.recall && before.precision <= after.precision && before.f1 <= after.f1
  {
    var p := SetOf(predicted);
    assert SetOf(predicted + [x]) == p + {x};
    TierGrows(p, x, t.direct);
    TierGrows(p, x, t.propagated);
    TierGrows(p, x, t.context);
    if x in p {
      assert p + {x} == p;
    } else {
      PrecisionGains(p, x, t);
    }
    var before, after := ScoreCase(predicted, t), ScoreCase(predicted + [x], t);
    MetricsAreFractions(predicted, t);
    F1Grows(before.precision, after.precision, before.recall);
    F1Grows(before.recall, after.recall, after.precision);
  }

  /** Predicting one more that does not never helps, and leaves recall where it was. */
  lemma IrrelevantNeverHelps(predicted: seq<string>, x: string, t: Truth)
    requires x !in AllTruth(t)
    ensures var before, after := ScoreCase(predicted, t), ScoreCase(predicted + [x], t);
            after.recall == before.recall && after.precision <= before.precision && after.f1 <= before.f1
  {
    var p := SetOf(predicted);
    assert SetOf(predicted + [x]) == p + {x};
    TierGrows(p, x, t.direct);
    TierGrows(p, x, t.propagated);
    TierGrows(p, x, t.context);
    if x in p {
      assert p + {x} == p;
    } else {
      PrecisionLoses(p, x, t);
    }
    var before, after := ScoreCase(predicted, t), ScoreCase(predicted + [x], t);
    MetricsAreFractions(predicted + [x], t);
    F1Grows(after.precision, before.precision, before.recall);
  }

  // --- The summary ------------------------------------------------------------------------

  datatype Case = Case(id: string, difficulty: string, antiBias: string, truth: Truth)

  datatype Scored = Scored(id: string, difficulty: string, antiBias: string, m: Metrics)

  datatype Group = Group(count: nat, recall: real, precision: real, f1: real)

  datatype Summary = Summary(
    overall: Group, byDifficulty: map<string, Group>, byAntiBias: map<string, Group>, cases: seq<Scored>)

  datatype Measure = ByRecall | ByPrecision | ByF1 | ByCount

  function Of(s: Scored, what: Measure): real {
    match what
    case ByRecall => s.m.recall
    case ByPrecision => s.m.precision
    case ByF1 => s.m.f1
    case ByCount => 1.0
  }

  function Sum(ms: seq<Scored>, what: Measure): real {
    if ms == [] then 0.0 else Sum(ms[..|ms| - 1], what) + Of(ms[|ms| - 1], what)
  }

  function Mean(ms: seq<Scored>, what: Measure): real {
    if ms == [] then 0.0 else Sum(ms, what) / |ms| as real
  }

  function GroupOf(ms: seq<Scored>): Group {
    Group(|ms|, Mean(ms, ByRecall), Mean(ms, ByPrecision), Mean(ms, ByF1))
  }

  function InGroup(ms: seq<Scored>, antiBias: string): seq<Scored> {
    if ms == [] then [] else
      var last := ms[|ms| - 1];
      var before := InGroup(ms[..|ms| - 1], antiBias);
      if last.antiBias == antiBias then before + [last] else before
  }

  function AtDifficulty(ms: seq<Scored>, difficulty: string): seq<Scored> {
    if ms == [] then [] else
      var last := ms[|ms| - 1];
      var before := AtDifficulty(ms[..|ms| - 1], difficulty);
      if last.difficulty == difficulty then before + [last] else before
  }

  function ScoreOne(c: Case, predictions: map<string, seq<string>>): Scored {
    Scored(c.id, c.difficulty, c.antiBias, ScoreCase(if c.id in predictions then predictions[c.id] else [], c.truth))
  }

  function ScoreAll(cases: seq<Case>, predictions: map<string, seq<string>>): seq<Scored> {
    seq(|cases|, i requires 0 <= i < |cases| => ScoreOne(cases[i], predictions))
  }

  function Biases(ms: seq<Scored>): set<string> {
    set m | m in ms :: m.antiBias
  }

  /** One figure of a group, weighted by its count. */
  function Total(g: Group, what: Measure): real {
    match what
    case ByRecall => g.count as real * g.recall
    case ByPrecision => g.count as real * g.precision
    case ByF1 => g.count as real * g.f1
    case ByCount => g.count as real
  }

  /** The weighted figures of the listed groups of a report, added up. */
  ghost function Totals(groups: map<string, Group>, biases: seq<string>, what: Measure): real
    requires SetOf(biases) <= groups.Keys
  {
    if biases == [] then 0.0 else
      var b := biases[|biases| - 1];
      assert b in SetOf(biases) && SetOf(biases[..|biases| - 1]) <= SetOf(biases);
      Totals(groups, biases[..|biases| - 1], what) + Total(groups[b], what)
  }

  method BuildSummary(cases: seq<Case>, predictions: map<string, seq<string>>) returns (s: Summary)
    ensures var ms := ScoreAll(cases, predictions);
      && s.cases == ms
      && s.overall == GroupOf(ms)
      && s.byAntiBias.Keys == Biases(ms)
      && (forall b | b in s.byAntiBias :: s.byAntiBias[b] == GroupOf(InGroup(ms, b)))
      && (forall d :: d in s.byDifficulty <==> d in DIFFICULTY_ORDER && AtDifficulty(ms, d) != [])
      && (forall d | d in s.byDifficulty :: s.byDifficulty[d] == GroupOf(AtDifficulty(ms, d)))
    ensures forall biases, what | Distinct(biases) && SetOf(biases) == s.byAntiBias.Keys ::
              Totals(s.byAntiBias, biases, what) == Total(s.overall, what)
    ensures ScoredEach(s.cases, cases, predictions)
  {
    AllScored(cases, predictions);
    hide ScoredEach;
    hide ScoreAll, GroupOf, InGroup, AtDifficulty, Total, Totals;
    var metrics := ScoreCases(cases, predictions);
    var byDifficulty := GroupByDifficulty(metrics);
    var byAntiBias := map b | b in Biases(metrics) :: GroupOf(InGroup(metrics, b));
    s := Summary(GroupOf(metrics), byDifficulty, byAntiBias, metrics);
    forall biases, what | Distinct(biases) && SetOf(biases) == byAntiBias.Keys
      ensures Totals(byAntiBias, biases, what) == Total(s.overall, what)
    {
      WeightedMeansAgree(metrics, byAntiBias, biases, what);
    }
  }

  /** Every case is reported once, in order, under its own labels, and scored with the
      prediction made for it, or as if nothing had been predicted. */
  ghost predicate ScoredEach(ms: seq<Scored>, cases: seq<Case>, predictions: map<string, seq<string>>) {
    && |ms| == |cases|
    && forall i | 0 <= i < |cases| ::
         && ms[i].id == cases[i].id && ms[i].difficulty == cases[i].difficulty && ms[i].antiBias == cases[i].antiBias
         && (cases[i].id in predictions ==> ms[i].m == ScoreCase(predictions[cases[i].id], cases[i].truth))
         && (cases[i].id !in predictions ==> ms[i].m == ScoreCase([], cases[i].truth))
  }

  lemma AllScored(cases: seq<Case>, predictions: map<string, seq<string>>)
    ensures ScoredEach(ScoreAll(cases, predictions), cases, predictions)
  {
    hide ScoreCase;
  }

  /** A group takes exactly the cases with its label, as often as they occur. */
  lemma {:induction false} GroupsTakeTheirOwn(ms: seq<Scored>, key: string, s: Scored)
    ensures multiset(InGroup(ms, key))[s] == if s.antiBias == key then multiset(ms)[s] else 0
    ensures multiset(AtDifficulty(ms, key))[s] == if s.difficulty == key then multiset(ms)[s] else 0
  {
    if ms != [] {
      GroupsTakeTheirOwn(ms[..|ms| - 1], key, s);
      assert ms == ms[..|ms| - 1] + [ms[|ms| - 1]];
    }
  }

  /** One more case moves each mean by its own figure. */
  lemma CaseCountsOnce(ms: seq<Scored>, s: Scored)
    ensures GroupOf([]) == Group(0, 0.0, 0.0, 0.0)
    ensures var g, h := GroupOf(ms), GroupOf(ms + [s]);
      && h.count == g.count + 1
      && h.count as real * h.recall == g.count as real * g.recall + s.m.recall
      && h.count as real * h.precision == g.count as real * g.precision + s.m.precision
      && h.count as real * h.f1 == g.count as real * g.f1 + s.m.f1
  {
    assert (ms + [s])[..|ms|] == ms;
    MeansTimesCount(ms);
    MeansTimesCount(ms + [s]);
  }

  lemma MeansTimesCount(ms: seq<Scored>)
    ensures forall what :: |ms| as real * Mean(ms, what) == Sum(ms, what)
  {
    forall what ensures |ms| as real * Mean(ms, what) == Sum(ms, what) {
      MeanTimesCount(ms, what);
    }
  }

  method ScoreCases(cases: seq<Case>, predictions: map<string, seq<string>>) returns (metrics: seq<Scored>)
    ensures metrics == ScoreAll(cases, predictions)
  {
    hide ScoreOne;
    metrics := [];
    for i := 0 to |cases|
      invariant |metrics| == i && forall k | 0 <= k < i :: metrics[k] == ScoreOne(cases[k], predictions)
    {
      var scored := ScoreOne(cases[i], predictions);
      metrics := metrics + [scored];
    }
  }

  method GroupByDifficulty(ms: seq<Scored>) returns (groups: map<string, Group>)
    ensures forall d :: d in groups <==> d in DIFFICULTY_ORDER && AtDifficulty(ms, d) != []
    ensures forall d | d in groups :: groups[d] == GroupOf(AtDifficulty(ms, d))
  {
    groups := map[];
    var order := DIFFICULTY_ORDER;
    for i := 0 to |order|
      invariant forall d :: d in groups <==> d in order[..i] && AtDifficulty(ms, d) != []
      invariant forall d | d in groups :: groups[d] == GroupOf(AtDifficulty(ms, d))
    {
      var group := AtDifficulty(ms, order[i]);
      assert order[..i + 1] == order[..i] + [order[i]];
      if group != [] {
        groups := groups[order[i] := GroupOf(group)];
      }
    }
    assert order[..|order|] == order;
  }

  /** Count times mean is the sum. */
  lemma TotalIsSum(ms: seq<Scored>, what: Measure)
    ensures Total(GroupOf(ms), what) == Sum(ms, what)
  {
    if what.ByCount? {
      CountsAreOnes(ms);
    } else {
      MeanTimesCount(ms, what);
    }
  }

  lemma MeanTimesCount(ms: seq<Scored>, what: Measure)
    ensures |ms| as real * Mean(ms, what) == Sum(ms, what)
  {
  }

  lemma {:induction false} CountsAreOnes(ms: seq<Scored>)
    ensures Sum(ms, ByCount) == |ms| as real
  {
    if ms != [] {
      CountsAreOnes(ms[..|ms| - 1]);
    }
  }

  /** The sums of the listed groups. */
  ghost function GroupSums(ms: seq<Scored>, biases: seq<string>, what: Measure): real {
    if biases == [] then 0.0 else
      GroupSums(ms, biases[..|biases| - 1], what) + Sum(InGroup(ms, biases[|biases| - 1]), what)
  }

  lemma {:induction false} GroupSumsStep(ms: seq<Scored>, last: Scored, biases: seq<string>, what: Measure)
    requires Distinct(biases)
    ensures GroupSums(ms + [last], biases, what)
         == GroupSums(ms, biases, what) + if last.antiBias in biases then Of(last, what) else 0.0
  {
    if biases != [] {
      var front, b := biases[..|biases| - 1], biases[|biases| - 1];
      GroupSumsStep(ms, last, front, what);
      assert biases == front + [b] && b !in front;
      assert (ms + [last])[..|ms|] == ms;
      var g := InGroup(ms, b);
      assert (g + [last])[..|g|] == g;
      assert Sum(InGroup(ms + [last], b), what) == Sum(g, what) + if last.antiBias == b then Of(last, what) else 0.0;
    }
  }

  lemma {:induction false} EmptyGroups(biases: seq<string>, what: Measure)
    ensures GroupSums([], biases, what) == 0.0
  {
    if biases != [] {
      EmptyGroups(biases[..|biases| - 1], what);
    }
  }

  /** However the groups are listed, their sums make up the whole. */
  lemma {:induction false} GroupsMakeUpTheWhole(ms: seq<Scored>, biases: seq<string>, what: Measure)
    requires Distinct(biases) && Biases(ms) <= SetOf(biases)
    ensures GroupSums(ms, biases, what) == Sum(ms, what)
  {
    if ms == [] {
      EmptyGroups(biases, what);
    } else {
      var front, last := ms[..|ms| - 1], ms[|ms| - 1];
      assert ms == front + [last];
      assert last.antiBias in Biases(ms);
      GroupsMakeUpTheWhole(front, biases, what);
      GroupSumsStep(front, last, biases, what);
    }
  }

  lemma {:induction false} TotalsAreSums(
      ms: seq<Scored>, groups: map<string, Group>, biases: seq<string>, what: Measure)
    requires SetOf(biases) <= groups.Keys && forall b | b in groups :: groups[b] == GroupOf(InGroup(ms, b))
    ensures Totals(groups, biases, what) == GroupSums(ms, biases, what)
  {
    if biases != [] {
      hide Total, GroupOf, InGroup, Sum;
      var front, b := biases[..|biases| - 1], biases[|biases| - 1];
      assert b in SetOf(biases) && SetOf(front) <= SetOf(biases);
      TotalsAreSums(ms, groups, front, what);
      TotalIsSum(InGroup(ms, b), what);
    }
  }

  /** The groups of a report account for its overall figures: count-weighted group means
      add up to the count-weighted overall mean, and the counts to the count. */
  lemma WeightedMeansAgree(ms: seq<Scored>, groups: map<string, Group>, biases: seq<string>, what: Measure)
    requires Distinct(biases) && SetOf(biases) == groups.Keys == Biases(ms)
    requires forall b | b in groups :: groups[b] == GroupOf(InGroup(ms, b))
    ensures Totals(groups, biases, what) == Total(GroupOf(ms), what)
  {
    hide Total, Totals, GroupOf, InGroup, Sum;
    TotalsAreSums(ms, groups, biases, what);
    GroupsMakeUpTheWhole(ms, biases, what);
    TotalIsSum(ms, what);
  }
}
