/** How much one assessment changes a reputation score. */
module Scoring {
  import opened Sequences

  const REPUTATION_MIN := -100
  const REPUTATION_MAX := 100

  predicate InRange(score: int) { REPUTATION_MIN <= score <= REPUTATION_MAX }

  function Clamp(score: int): (r: int)
    ensures InRange(r)
  {
    if score < REPUTATION_MIN then REPUTATION_MIN else if score > REPUTATION_MAX then REPUTATION_MAX else score
  }

  function PositiveChange(eventCount: nat): int {
    if eventCount > 0 && eventCount % 100 == 0 then Min(5, eventCount / 20) else 0
  }

  /** Five points for each full hundred of events, at the event that completes it. */
  lemma PositivePoints(eventCount: nat)
    ensures PositiveChange(eventCount) == if exists n: nat :: n > 0 && eventCount == 100 * n then 5 else 0
  {
    if eventCount > 0 && eventCount % 100 == 0 {
      assert eventCount == 100 * (eventCount / 100);
    }
  }

  /** To the nearest integer; halves go to the even one. */
  function Rounded(x: real): int {
    var rest := x - x.Floor as real;
    if rest < 0.5 || (rest == 0.5 && x.Floor % 2 == 0) then x.Floor else x.Floor + 1
  }

  /** How a threat was assessed. */
  datatype Threat = Threat(score: int, confidence: int, riskLevel: int, isRepeat: bool, banCount: nat)

  function RepeatFactor(t: Threat): real { if t.isRepeat then 1.5 else 1.0 }

  function BanFactor(t: Threat): real {
    if t.banCount == 0 then 1.0
    else if 1.0 + t.banCount as real * 0.25 < 3.0 then 1.0 + t.banCount as real * 0.25 else 3.0
  }

  function RiskFactor(t: Threat): real { if t.riskLevel >= 3 then 1.3 else 1.0 }

  function Penalty(t: Threat): real {
    var base := -(t.score as real / 100.0) * 30.0;
    var confidenceFactor := t.confidence as real / 100.0 * 1.5;
    base * confidenceFactor * RepeatFactor(t) * BanFactor(t) * RiskFactor(t)
  }

  function ScoreChange(t: Threat): (r: int)
    ensures InRange(r)
  {
    Clamp(Rounded(Penalty(t)))
  }

  /** The nearest integer; of two equally near ones the even one. */
  lemma RoundedIsNearest(x: real, n: int)
    ensures Rounded(x) == n <==>
            || n as real - 0.5 < x < n as real + 0.5
            || (n % 2 == 0 && (x == n as real - 0.5 || x == n as real + 0.5))
  {}

  /** The loss in full: 45 points for a certain threat of the highest score, in proportion to score and
      confidence; half as much again for a repeated one, a quarter of it for each ban before up to three times
      the loss, and three tenths on top from risk level 3 on. */
  lemma PenaltyInFull(t: Threat)
    ensures var repeated, risk := if t.isRepeat then 15 else 10, if t.riskLevel >= 3 then 13 else 10;
            var bans: nat := if t.banCount < 8 then 4 + t.banCount else 12;
            Penalty(t) == -((45 * t.score * t.confidence * repeated * bans * risk) as real / 4000000.0)
  {
    var repeated, risk := if t.isRepeat then 15 else 10, if t.riskLevel >= 3 then 13 else 10;
    var bans: nat := if t.banCount < 8 then 4 + t.banCount else 12;
    assert RepeatFactor(t) == repeated as real / 10.0;
    assert RiskFactor(t) == risk as real / 10.0;
    assert BanFactor(t) == bans as real / 4.0;
    hide RepeatFactor, RiskFactor, BanFactor;
    QuotientsMultiply(t.score as real, t.confidence as real, repeated as real, bans as real, risk as real);
    WholeProduct(t.score, t.confidence, repeated, bans, risk);
  }

  lemma QuotientsMultiply(s: real, c: real, r: real, b: real, k: real)
    ensures -(s / 100.0) * 30.0 * (c / 100.0 * 1.5) * (r / 10.0) * (b / 4.0) * (k / 10.0) == -(45.0 * s * c * r * b * k / 4000000.0)
  {
    assert -(s / 100.0) * 30.0 == -0.3 * s;
    assert c / 100.0 * 1.5 == 0.015 * c;
    assert (-0.3 * s) * (0.015 * c) == -0.0045 * (s * c);
    assert (-0.0045 * (s * c)) * (r / 10.0) == -0.00045 * (s * c * r);
    assert (-0.00045 * (s * c * r)) * (b / 4.0) == -0.0001125 * (s * c * r * b);
    assert (-0.0001125 * (s * c * r * b)) * (k / 10.0) == -0.00001125 * (s * c * r * b * k);
    assert 45.0 * s * c * r * b * k == 45.0 * (s * c * r * b * k);
  }

  lemma WholeProduct(s: int, c: int, r: int, b: int, k: int)
    ensures 45.0 * s as real * c as real * r as real * b as real * k as real == (45 * s * c * r * b * k) as real
  {
    assert 45.0 * s as real == (45 * s) as real;
    assert (45 * s) as real * c as real == (45 * s * c) as real;
    assert (45 * s * c) as real * r as real == (45 * s * c * r) as real;
    assert (45 * s * c * r) as real * b as real == (45 * s * c * r * b) as real;
  }

  ghost predicate NoMilder(a: Threat, b: Threat) {
    && 0 <= a.score <= b.score && 0 <= a.confidence <= b.confidence && a.riskLevel <= b.riskLevel
    && (a.isRepeat ==> b.isRepeat) && a.banCount <= b.banCount
  }

  lemma RoundingIsMonotone(x: real, y: real)
    requires x <= y
    ensures Rounded(x) <= Rounded(y)
  {}

  lemma ProductIsMonotone(a: real, b: real, x: real, y: real)
    requires 0.0 <= a <= b && 0.0 <= x <= y
    ensures 0.0 <= a * x <= b * y
  {
    assert a * x <= b * x <= b * y;
  }

  lemma BanFactorIsMonotone(a: Threat, b: Threat)
    requires a.banCount <= b.banCount
    ensures 1.0 <= BanFactor(a) <= BanFactor(b)
  {}

  function Product(s: real, c: real, r: real, b: real, k: real): real { s * c * r * b * k }

  lemma FactorsAreMonotone(s: real, c: real, r: real, b: real, k: real, s': real, c': real, r': real, b': real, k': real)
    requires 0.0 <= s <= s' && 0.0 <= c <= c' && 0.0 <= r <= r' && 0.0 <= b <= b' && 0.0 <= k <= k'
    ensures 0.0 <= Product(s, c, r, b, k) <= Product(s', c', r', b', k')
  {
    ProductIsMonotone(s, s', c, c');
    ProductIsMonotone(s * c, s' * c', r, r');
    ProductIsMonotone(s * c * r, s' * c' * r', b, b');
    ProductIsMonotone(s * c * r * b, s' * c' * r' * b', k, k');
  }

  lemma SignMovesOut(s: real, c: real, r: real, b: real, k: real)
    ensures Product(-s, c, r, b, k) == -Product(s, c, r, b, k)
  {
    assert -s * c == -(s * c);
    assert -(s * c) * r == -(s * c * r);
    assert -(s * c * r) * b == -(s * c * r * b);
  }

  function Severity(t: Threat): real {
    Product(t.score as real / 100.0 * 30.0, t.confidence as real / 100.0 * 1.5, RepeatFactor(t), BanFactor(t), RiskFactor(t))
  }

  lemma PenaltyIsMinusSeverity(t: Threat)
    ensures Penalty(t) == -Severity(t)
  {
    var s := t.score as real / 100.0 * 30.0;
    assert -(t.score as real / 100.0) * 30.0 == -s;
    SignMovesOut(s, t.confidence as real / 100.0 * 1.5, RepeatFactor(t), BanFactor(t), RiskFactor(t));
    hide RepeatFactor, BanFactor, RiskFactor;
  }

  lemma PenaltyIsMonotone(a: Threat, b: Threat)
    requires NoMilder(a, b)
    ensures Penalty(b) <= Penalty(a) <= 0.0
  {
    PenaltyIsMinusSeverity(a);
    PenaltyIsMinusSeverity(b);
    BanFactorIsMonotone(a, b);
    hide Product, BanFactor, Penalty;
    FactorsAreMonotone(
      a.score as real / 100.0 * 30.0, a.confidence as real / 100.0 * 1.5, RepeatFactor(a), BanFactor(a), RiskFactor(a),
      b.score as real / 100.0 * 30.0, b.confidence as real / 100.0 * 1.5, RepeatFactor(b), BanFactor(b), RiskFactor(b));
  }

  /** A threat that is worse in any respect, repeated or with more bans before, never costs less, and no
      threat raises the score. */
  lemma WorseThreatsCostMore(a: Threat, b: Threat)
    requires NoMilder(a, b)
    ensures ScoreChange(b) <= ScoreChange(a) <= 0
  {
    PenaltyIsMonotone(a, b);
    hide Penalty, Rounded;
    RoundingIsMonotone(Penalty(b), Penalty(a));
    RoundingIsMonotone(Penalty(a), 0.0);
    RoundedZero();
  }

  lemma RoundedZero()
    ensures Rounded(0.0) == 0
  {}
}
