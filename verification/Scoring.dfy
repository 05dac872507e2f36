/** The canonical risk score and the decision made from it, over the reals. */
module Scoring {
  import opened Basics

  datatype DetectionMethod = Authenticated | Unauthenticated
  datatype ExploitMaturity = NoExploit | Poc | Functional | Weaponized | InTheWild
  datatype VexStatus = Affected | NotAffected | Unknown
  datatype Criticality = CrownJewel | High | Normal | Low
  datatype Decision = Act | Attend | Track | Defer
  datatype FindingState = Open | Suppressed | Reopened | Closed | Accepted

  datatype Enrichment = Enrichment(
    cvssEnv: Option<real>, epss: Option<real>, kev: bool, maturity: ExploitMaturity, vex: VexStatus)
  datatype AssetContext = AssetContext(internetFacing: bool, criticality: Criticality, compensatingControls: bool)

  datatype Explain = Explain(
    sev: real, likelihood: real, exposure: real, crit: real, reach: real, runtimeReachable: Option<bool>)
  datatype Score = Score(r: nat, explain: Explain)

  function Clamp(x: real, lo: real, hi: real): (r: real)
    requires lo <= hi
    ensures lo <= r <= hi
  {
    if x < lo then lo else if x > hi then hi else x
  }

  function Max(a: real, b: real): real { if a < b then b else a }

  function OrZero(x: Option<real>): real { if x.Some? then x.value else 0.0 }

  function MaturityWeight(m: ExploitMaturity): real {
    match m
    case NoExploit => 0.0
    case Poc => 0.4
    case Functional => 0.7
    case Weaponized => 0.9
    case InTheWild => 1.0
  }

  function ReachGate(v: VexStatus): real {
    match v case Affected => 1.0 case Unknown => 0.3 case NotAffected => 0.0
  }

  function CriticalityWeight(c: Criticality): real {
    match c case CrownJewel => 1.5 case High => 1.2 case Normal => 0.9 case Low => 0.5
  }

  function ExposureFactor(ctx: AssetContext): real {
    var e := if ctx.internetFacing then 1.4 else 0.8;
    Clamp(if ctx.compensatingControls then e * 0.5 else e, 0.2, 1.5)
  }

  /** Half away from zero, for non-negative numbers. */
  function Round(x: real): int
    requires x >= 0.0
  {
    (x + 0.5).Floor
  }

  function Times(a: real, b: real): real { a * b }

  function Raw(sev: real, likelihood: real, exposure: real, crit: real, reach: real): (r: real)
    ensures 0.0 <= r <= 1.0
  {
    Clamp(Times(Times(Times(Times(sev, 0.4 + 0.6 * likelihood), exposure), crit), reach), 0.0, 1.0)
  }

  function RecomputeWithReach(enr: Enrichment, ctx: AssetContext, reach: real): Score {
    var sev := Clamp(OrZero(enr.cvssEnv) / 10.0, 0.0, 1.0);
    var likelihood := Clamp(Max(OrZero(enr.epss), MaturityWeight(enr.maturity)), 0.0, 1.0);
    var exposure, crit := ExposureFactor(ctx), CriticalityWeight(ctx.criticality);
    Score(Round(100.0 * Raw(sev, likelihood, exposure, crit, reach)),
          Explain(sev, likelihood, exposure, crit, reach, None))
  }

  function RecomputeCompliance(weight: real, ctx: AssetContext): Score {
    var sev := Clamp(weight, 0.0, 1.0);
    var exposure, crit := ExposureFactor(ctx), CriticalityWeight(ctx.criticality);
    Score(Round(100.0 * Clamp(Times(Times(sev, exposure), crit), 0.0, 1.0)), Explain(sev, 1.0, exposure, crit, 1.0, None))
  }

  function SlaHours(d: Decision): nat {
    match d case Act => 48 case Attend => 336 case Track => 720 case Defer => 2160
  }

  function Decide(r: int, kev: bool, inScope: bool, reach: real): (Decision, nat) {
    var d := if (kev && inScope && reach > 0.0) || r >= 70 then Act
             else if r >= 40 then Attend
             else if r >= 20 then Track
             else Defer;
    (d, SlaHours(d))
  }

  // ----- bounds and monotonicity -----

  function Urgency(d: Decision): nat {
    match d case Act => 3 case Attend => 2 case Track => 1 case Defer => 0
  }

  function MaturityRank(m: ExploitMaturity): nat {
    match m case NoExploit => 0 case Poc => 1 case Functional => 2 case Weaponized => 3 case InTheWild => 4
  }

  function CriticalityRank(c: Criticality): nat {
    match c case Low => 0 case Normal => 1 case High => 2 case CrownJewel => 3
  }

  lemma ScoreInRange(enr: Enrichment, ctx: AssetContext, reach: real)
    ensures 0 <= RecomputeWithReach(enr, ctx, reach).r <= 100
  {
  }

  lemma RoundMonotone(x: real, y: real)
    requires 0.0 <= x <= y
    ensures Round(x) <= Round(y)
  {
  }

  lemma TimesMonotone(a: real, b: real, c: real, d: real)
    requires 0.0 <= a <= b && 0.0 <= c <= d
    ensures 0.0 <= Times(a, c) <= Times(b, d)
  {
    assert a * c <= b * c;
    assert b * c <= b * d;
  }

  /** No factor of the first is above the same factor of the second. */
  ghost predicate FactorsBelow(a: Explain, b: Explain) {
    && 0.0 <= a.sev <= b.sev && 0.0 <= a.likelihood <= b.likelihood && 0.0 <= a.exposure <= b.exposure
    && 0.0 <= a.crit <= b.crit && 0.0 <= a.reach <= b.reach
  }

  lemma RawMonotone(a: Explain, b: Explain)
    requires FactorsBelow(a, b)
    ensures Raw(a.sev, a.likelihood, a.exposure, a.crit, a.reach) <= Raw(b.sev, b.likelihood, b.exposure, b.crit, b.reach)
  {
    hide Times;
    var la, lb := 0.4 + 0.6 * a.likelihood, 0.4 + 0.6 * b.likelihood;
    TimesMonotone(a.sev, b.sev, la, lb);
    TimesMonotone(Times(a.sev, la), Times(b.sev, lb), a.exposure, b.exposure);
    TimesMonotone(Times(Times(a.sev, la), a.exposure), Times(Times(b.sev, lb), b.exposure), a.crit, b.crit);
    TimesMonotone(Times(Times(Times(a.sev, la), a.exposure), a.crit),
                  Times(Times(Times(b.sev, lb), b.exposure), b.crit), a.reach, b.reach);
  }

  /** The evidence and the asset of the first are in no respect worse than those of the second. */
  ghost predicate NoRiskier(e1: Enrichment, c1: AssetContext, e2: Enrichment, c2: AssetContext) {
    && OrZero(e1.cvssEnv) <= OrZero(e2.cvssEnv) && OrZero(e1.epss) <= OrZero(e2.epss)
    && MaturityRank(e1.maturity) <= MaturityRank(e2.maturity)
    && (c1.internetFacing ==> c2.internetFacing) && (c2.compensatingControls ==> c1.compensatingControls)
    && CriticalityRank(c1.criticality) <= CriticalityRank(c2.criticality)
  }

  lemma FactorsMonotone(e1: Enrichment, c1: AssetContext, r1: real, e2: Enrichment, c2: AssetContext, r2: real)
    requires NoRiskier(e1, c1, e2, c2) && 0.0 <= r1 <= r2
    ensures FactorsBelow(RecomputeWithReach(e1, c1, r1).explain, RecomputeWithReach(e2, c2, r2).explain)
  {
  }

  /** R never falls as CVSS, EPSS, exploit maturity, exposure, criticality or reach rise, together or alone. */
  lemma ScoreMonotone(e1: Enrichment, c1: AssetContext, r1: real, e2: Enrichment, c2: AssetContext, r2: real)
    requires NoRiskier(e1, c1, e2, c2) && 0.0 <= r1 <= r2
    ensures RecomputeWithReach(e1, c1, r1).r <= RecomputeWithReach(e2, c2, r2).r
  {
    var a, b := RecomputeWithReach(e1, c1, r1).explain, RecomputeWithReach(e2, c2, r2).explain;
    FactorsMonotone(e1, c1, r1, e2, c2, r2);
    RawMonotone(a, b);
    RoundMonotone(100.0 * Raw(a.sev, a.likelihood, a.exposure, a.crit, a.reach),
                  100.0 * Raw(b.sev, b.likelihood, b.exposure, b.crit, b.reach));
  }

  lemma DecideMonotone(s1: int, kev1: bool, r1: real, s2: int, kev2: bool, r2: real)
    requires s1 <= s2 && (kev1 ==> kev2) && r1 <= r2
    ensures Urgency(Decide(s1, kev1, true, r1).0) <= Urgency(Decide(s2, kev2, true, r2).0)
    ensures Decide(s2, kev2, true, r2).1 <= Decide(s1, kev1, true, r1).1
  {
  }

  /** Scoring and deciding together: more risk never weakens the decision nor lengthens its deadline. */
  lemma DecisionMonotone(e1: Enrichment, c1: AssetContext, r1: real, e2: Enrichment, c2: AssetContext, r2: real)
    requires NoRiskier(e1, c1, e2, c2) && (e1.kev ==> e2.kev) && 0.0 <= r1 <= r2
    ensures var d1 := Decide(RecomputeWithReach(e1, c1, r1).r, e1.kev, true, r1);
            var d2 := Decide(RecomputeWithReach(e2, c2, r2).r, e2.kev, true, r2);
            Urgency(d1.0) <= Urgency(d2.0) && d2.1 <= d1.1
  {
    hide RecomputeWithReach, Decide;
    ScoreMonotone(e1, c1, r1, e2, c2, r2);
    DecideMonotone(RecomputeWithReach(e1, c1, r1).r, e1.kev, r1, RecomputeWithReach(e2, c2, r2).r, e2.kev, r2);
  }

  lemma ZeroReach(enr: Enrichment, ctx: AssetContext)
    ensures RecomputeWithReach(enr, ctx, 0.0).r == 0
  {
  }

  /** The same for a posture weight. */
  lemma ComplianceMonotone(w1: real, w2: real, ctx: AssetContext)
    requires w1 <= w2
    ensures 0 <= RecomputeCompliance(w1, ctx).r <= RecomputeCompliance(w2, ctx).r <= 100
  {
    hide Times;
    var s1, s2 := Clamp(w1, 0.0, 1.0), Clamp(w2, 0.0, 1.0);
    var e, c := ExposureFactor(ctx), CriticalityWeight(ctx.criticality);
    TimesMonotone(s1, s2, e, e);
    TimesMonotone(Times(s1, e), Times(s2, e), c, c);
    RoundMonotone(100.0 * Clamp(Times(Times(s1, e), c), 0.0, 1.0), 100.0 * Clamp(Times(Times(s2, e), c), 0.0, 1.0));
  }

  // ----- what the numbers are -----

  /** A known-exploited, in-scope, reachable vulnerability is acted on whatever its score, and
      otherwise the score alone decides, at 70, 40 and 20. */
  lemma DecideExactly(r: int, kev: bool, inScope: bool, reach: real)
    ensures var (d, hours) := Decide(r, kev, inScope, reach);
            var override := kev && inScope && reach > 0.0;
            && (d == Act <==> override || r >= 70) && (d == Attend <==> !override && 40 <= r < 70)
            && (d == Track <==> !override && 20 <= r < 40) && (d == Defer <==> !override && r < 20)
            && (d == Act <==> hours == 48) && (d == Attend <==> hours == 336)
            && (d == Track <==> hours == 720) && (d == Defer <==> hours == 2160)
  {
  }

  lemma KevOverrides(r: int, reach: real)
    requires reach > 0.0
    ensures Decide(r, true, true, reach) == (Act, 48)
  {
  }

  /** `r` is the whole number nearest to `x`, the upper one of two. */
  ghost predicate Nearest(r: int, x: real) { r as real - 0.5 <= x < r as real + 0.5 }

  lemma RoundNearest(x: real)
    requires x >= 0.0
    ensures Nearest(Round(x), x)
  {
  }

  /** The least of `x` and 1, and not below 0. */
  ghost predicate Unit(y: real, x: real) {
    (x <= 0.0 && y == 0.0) || (0.0 <= x <= 1.0 && y == x) || (x >= 1.0 && y == 1.0)
  }

  /** The factors a score is made of, each as the policy documents it. */
  ghost predicate Factors(enr: Enrichment, ctx: AssetContext, reach: real, e: Explain) {
    && Unit(e.sev, if enr.cvssEnv.Some? then enr.cvssEnv.value / 10.0 else 0.0)
    && (exists l: real :: Unit(e.likelihood, l) && Larger(l, if enr.epss.Some? then enr.epss.value else 0.0,
          match enr.maturity case NoExploit => 0.0 case Poc => 0.4 case Functional => 0.7 case Weaponized => 0.9 case InTheWild => 1.0))
    && e.exposure == (if ctx.internetFacing then 1.4 else 0.8) * (if ctx.compensatingControls then 0.5 else 1.0)
    && e.crit == (match ctx.criticality case CrownJewel => 1.5 case High => 1.2 case Normal => 0.9 case Low => 0.5)
    && e.reach == reach
  }

  ghost predicate Larger(l: real, a: real, b: real) { l >= a && l >= b && (l == a || l == b) }

  /** `r` is a hundred times `x`, cut to 0..1 and rounded. */
  ghost predicate Scores(r: int, x: real) {
    if x <= 0.0 then r == 0 else if x >= 1.0 then r == 100 else Nearest(r, 100.0 * x)
  }

  lemma CutAndRounded(x: real)
    ensures Scores(Round(100.0 * Clamp(x, 0.0, 1.0)), x)
  {
    RoundNearest(100.0 * Clamp(x, 0.0, 1.0));
  }

  /** The documented product of the factors. */
  ghost function Risk(e: Explain): real { e.sev * (0.4 + 0.6 * e.likelihood) * e.exposure * e.crit * e.reach }

  lemma RiskByTimes(e: Explain)
    ensures Times(Times(Times(Times(e.sev, 0.4 + 0.6 * e.likelihood), e.exposure), e.crit), e.reach) == Risk(e)
  {
    var a := e.sev * (0.4 + 0.6 * e.likelihood);
    assert Times(e.sev, 0.4 + 0.6 * e.likelihood) == a;
    assert Times(a, e.exposure) == a * e.exposure;
    assert Times(a * e.exposure, e.crit) == a * e.exposure * e.crit;
  }

  lemma FactorsExactly(enr: Enrichment, ctx: AssetContext, reach: real)
    ensures Factors(enr, ctx, reach, RecomputeWithReach(enr, ctx, reach).explain)
  {
    hide Raw, Round;
    var e := RecomputeWithReach(enr, ctx, reach).explain;
    var l := Max(OrZero(enr.epss), MaturityWeight(enr.maturity));
    assert Unit(e.likelihood, l);
    assert Larger(l, OrZero(enr.epss), MaturityWeight(enr.maturity));
  }

  /** The explanation holds the documented factors, and R is their product in percent. */
  lemma ScoreExactly(enr: Enrichment, ctx: AssetContext, reach: real)
    ensures var s := RecomputeWithReach(enr, ctx, reach);
            var e := s.explain;
            Factors(enr, ctx, reach, e) && Scores(s.r, Risk(e))
  {
    hide Times, Scores, Round, Nearest, Factors, Risk;
    FactorsExactly(enr, ctx, reach);
    var e := RecomputeWithReach(enr, ctx, reach).explain;
    RiskByTimes(e);
    CutAndRounded(Times(Times(Times(Times(e.sev, 0.4 + 0.6 * e.likelihood), e.exposure), e.crit), reach));
  }

  /** A policy weight scores weight * exposure * crit in the same way. */
  lemma ComplianceExactly(weight: real, ctx: AssetContext)
    ensures var s := RecomputeCompliance(weight, ctx);
            var e := s.explain;
            && Unit(e.sev, weight) && e.reach == 1.0
            && e.exposure == (if ctx.internetFacing then 1.4 else 0.8) * (if ctx.compensatingControls then 0.5 else 1.0)
            && e.crit == (match ctx.criticality case CrownJewel => 1.5 case High => 1.2 case Normal => 0.9 case Low => 0.5)
            && Scores(s.r, Times(Times(e.sev, e.exposure), e.crit))
  {
    hide Times, Scores, Round, Nearest;
    var e := RecomputeCompliance(weight, ctx).explain;
    CutAndRounded(Times(Times(e.sev, e.exposure), e.crit));
  }
}
