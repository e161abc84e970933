/** How strongly a belief is held, and which of two beliefs prevails.  Scores are exact reals, and exponential decay is
    any function that falls from one towards zero. */
module BeliefStrength {
  datatype SourceType = VerifiedFact | ExternalTool | UserInput | LlmInference
  datatype Scope = File | Session | Project | Agent | Global
  datatype Family = Preference | Decision | Constraint | Workflow | Fact | Plain

  /** A predicate and the family its prefix puts it in. */
  datatype Predicate = Predicate(family: Family, name: string)

  datatype Claim = Claim(confidence: real, trust: real, source: SourceType, validFrom: int, scope: Scope, pred: Predicate)

  datatype Weights = Weights(confidence: real, trust: real, freshness: real, scope: real)

  datatype Verdict = Incoming | Existing | Tie

  type Decay = real -> real

  ghost predicate Decays(decay: Decay) {
    && (forall x: real :: 0.0 <= decay(x) <= 1.0)
    && forall x: real, y: real :: 0.0 <= x <= y ==> decay(y) <= decay(x)
  }

  function SourceTrust(s: SourceType): real {
    match s
    case VerifiedFact => 1.0
    case ExternalTool => 0.9
    case UserInput => 0.85
    case LlmInference => 0.55
  }

  function ScopePriority(s: Scope): nat {
    match s
    case File => 5
    case Session => 4
    case Project => 3
    case Agent => 2
    case Global => 1
  }

  predicate PreferenceLike(p: Predicate) {
    p.family == Preference || p.family == Decision
  }

  function ResolveWeightMatrix(p: Predicate, s: SourceType): Weights {
    if PreferenceLike(p) then Weights(0.28, 0.22, 0.38, 0.12)
    else if p.family == Constraint || p.family == Workflow then Weights(0.3, 0.3, 0.24, 0.16)
    else if s == VerifiedFact then Weights(0.24, 0.46, 0.18, 0.12)
    else Weights(0.3, 0.34, 0.24, 0.12)
  }

  function HalfLifeHours(p: Predicate, s: SourceType): real {
    match p.family
    case Preference => 240.0
    case Decision => 336.0
    case Constraint => 504.0
    case _ => if s == VerifiedFact then 2160.0 else 720.0
  }

  function Max(a: real, b: real): real {
    if a > b then a else b
  }

  function Clamp(x: real): real {
    if x < 0.0 then 0.0 else if x > 1.0 then 1.0 else x
  }

  /** Half-lives since the claim became valid; a claim about the future counts as new. */
  function Age(validFrom: int, now: int, halfLifeHours: real): real
    requires halfLifeHours > 0.0
  {
    Max((now - validFrom) as real / 3600000.0, 0.0) / halfLifeHours
  }

  function ComputeTemporalFreshness(c: Claim, now: int, decay: Decay): real {
    decay(Age(c.validFrom, now, HalfLifeHours(c.pred, c.source)))
  }

  function ComputeScopeWeight(s: Scope, p: Predicate): real {
    if p.family == Fact && s == Global then 0.8
    else if p.family == Fact && s == File then 0.6
    else match s
         case Global => 0.45
         case Agent => 0.5
         case Project => 0.68
         case Session => 0.82
         case File => 0.92
  }

  function EffectiveTrust(c: Claim): real {
    Clamp((c.trust + SourceTrust(c.source)) / 2.0)
  }

  function WeightedSum(w: Weights, confidence: real, trust: real, freshness: real, scope: real): real {
    confidence * w.confidence + trust * w.trust + freshness * w.freshness + scope * w.scope
  }

  function ComputeBeliefStrength(c: Claim, now: int, decay: Decay): real {
    WeightedSum(ResolveWeightMatrix(c.pred, c.source), c.confidence, EffectiveTrust(c),
                ComputeTemporalFreshness(c, now, decay), ComputeScopeWeight(c.scope, c.pred))
  }

  function CompareBeliefs(incoming: Claim, existing: Claim, now: int, decay: Decay): Verdict {
    var delta := ComputeBeliefStrength(incoming, now, decay) - ComputeBeliefStrength(existing, now, decay);
    var newerPreferenceRevision :=
      PreferenceLike(incoming.pred) && incoming.validFrom > existing.validFrom
      && incoming.source == existing.source && delta > -0.05;
    if newerPreferenceRevision then Incoming
    else if delta >= 0.12 then Incoming
    else if delta <= -0.12 then Existing
    else Tie
  }

  lemma LaterIsYounger(a: int, b: int, now: int, halfLife: real)
    requires a >= b && halfLife > 0.0
    ensures 0.0 <= Age(a, now, halfLife) <= Age(b, now, halfLife)
  {
    var x, y := Max((now - a) as real / 3600000.0, 0.0), Max((now - b) as real / 3600000.0, 0.0);
    assert 0.0 <= x <= y;
    QuotientsKeepOrder(x, y, halfLife);
  }

  lemma QuotientsKeepOrder(x: real, y: real, d: real)
    requires 0.0 <= x <= y && d > 0.0
    ensures 0.0 <= x / d <= y / d
  {
  }

  /** The four weights are shares of one, so a strength is a weighted mean of numbers between zero and one. */
  lemma StrengthIsAMean(c: Claim, now: int, decay: Decay)
    requires Decays(decay) && 0.0 <= c.confidence <= 1.0
    ensures 0.0 <= ComputeBeliefStrength(c, now, decay) <= 1.0
  {
    var f := ComputeTemporalFreshness(c, now, decay);
    assert 0.0 <= f <= 1.0;
    var s := ComputeScopeWeight(c.scope, c.pred);
    assert 0.45 <= s <= 0.92;
    var t := EffectiveTrust(c);
    assert 0.0 <= t <= 1.0;
    Mean(c.confidence, t, f, s, ResolveWeightMatrix(c.pred, c.source));
  }

  lemma Mean(c: real, t: real, f: real, s: real, w: Weights)
    requires 0.0 <= c <= 1.0 && 0.0 <= t <= 1.0 && 0.0 <= f <= 1.0 && 0.0 <= s <= 1.0
    requires w in {Weights(0.28, 0.22, 0.38, 0.12), Weights(0.3, 0.3, 0.24, 0.16),
                   Weights(0.24, 0.46, 0.18, 0.12), Weights(0.3, 0.34, 0.24, 0.12)}
    ensures 0.0 <= c * w.confidence + t * w.trust + f * w.freshness + s * w.scope <= 1.0
  {
    if w == Weights(0.28, 0.22, 0.38, 0.12) {
    } else if w == Weights(0.3, 0.3, 0.24, 0.16) {
    } else if w == Weights(0.24, 0.46, 0.18, 0.12) {
    } else {
    }
  }

  /** Two claims of the same kind: younger, no less confident and no less trusted means no weaker. */
  lemma NoWeaker(a: Claim, b: Claim, now: int, decay: Decay)
    requires Decays(decay)
    requires a.pred == b.pred && a.scope == b.scope && a.source == b.source
    requires a.validFrom >= b.validFrom && a.confidence >= b.confidence && a.trust >= b.trust
    ensures ComputeBeliefStrength(a, now, decay) >= ComputeBeliefStrength(b, now, decay)
  {
    FresherWhenLater(a, b, now, decay);
    TrustKeepsOrder(a, b);
    SumKeepsOrder(ResolveWeightMatrix(a.pred, a.source), a.confidence, b.confidence, EffectiveTrust(a), EffectiveTrust(b),
                  ComputeTemporalFreshness(a, now, decay), ComputeTemporalFreshness(b, now, decay), ComputeScopeWeight(a.scope, a.pred));
  }

  lemma FresherWhenLater(a: Claim, b: Claim, now: int, decay: Decay)
    requires Decays(decay)
    requires a.pred == b.pred && a.source == b.source && a.validFrom >= b.validFrom
    ensures ComputeTemporalFreshness(a, now, decay) >= ComputeTemporalFreshness(b, now, decay)
  {
    LaterIsYounger(a.validFrom, b.validFrom, now, HalfLifeHours(a.pred, a.source));
  }

  lemma TrustKeepsOrder(a: Claim, b: Claim)
    requires a.source == b.source && a.trust >= b.trust
    ensures EffectiveTrust(a) >= EffectiveTrust(b)
  {
  }

  lemma SumKeepsOrder(w: Weights, ca: real, cb: real, ta: real, tb: real, fa: real, fb: real, scope: real)
    requires ca >= cb && ta >= tb && fa >= fb && w.confidence >= 0.0 && w.trust >= 0.0 && w.freshness >= 0.0
    ensures WeightedSum(w, ca, ta, fa, scope) >= WeightedSum(w, cb, tb, fb, scope)
  {
    var c, t, f := w.confidence, w.trust, w.freshness;
    assert ca * c >= cb * c by { MoreTimesWeight(ca, cb, c); }
    assert ta * t >= tb * t by { MoreTimesWeight(ta, tb, t); }
    assert fa * f >= fb * f by { MoreTimesWeight(fa, fb, f); }
    assert WeightedSum(w, ca, ta, fa, scope) == ca * c + ta * t + fa * f + scope * w.scope;
    assert WeightedSum(w, cb, tb, fb, scope) == cb * c + tb * t + fb * f + scope * w.scope;
  }

  lemma MoreTimesWeight(x: real, y: real, w: real)
    requires x >= y && w >= 0.0
    ensures x * w >= y * w
  {
  }

  /** A preference that is strictly newer than one from the same kind of source wins even against slightly more
      confidence or trust. */
  lemma NewerPreferencePrevails(incoming: Claim, existing: Claim, now: int, decay: Decay)
    requires Decays(decay)
    requires PreferenceLike(incoming.pred)
    requires incoming.pred == existing.pred && incoming.scope == existing.scope && incoming.source == existing.source
    requires incoming.validFrom > existing.validFrom
    requires incoming.confidence >= existing.confidence && incoming.trust >= existing.trust
    ensures CompareBeliefs(incoming, existing, now, decay) == Incoming
  {
    NoWeaker(incoming, existing, now, decay);
  }

  /* ---------- the strength in closed form ---------- */

  /** Percentages of confidence, of a claim's own trust and its source's, of freshness and of scope; and the days after
      which freshness has halved. */
  datatype Shares = Shares(confidence: real, eachTrust: real, freshness: real, scope: real, days: real)

  function SharesOf(c: Claim): Shares {
    match c.pred.family
    case Preference => Shares(28.0, 11.0, 38.0, 12.0, 10.0)
    case Decision => Shares(28.0, 11.0, 38.0, 12.0, 14.0)
    case Constraint => Shares(30.0, 15.0, 24.0, 16.0, 21.0)
    case Workflow => Shares(30.0, 15.0, 24.0, 16.0, if c.source == VerifiedFact then 90.0 else 30.0)
    case _ => if c.source == VerifiedFact then Shares(24.0, 23.0, 18.0, 12.0, 90.0) else Shares(30.0, 17.0, 24.0, 12.0, 30.0)
  }

  function TrustPercent(s: SourceType): real {
    match s case VerifiedFact => 100.0 case ExternalTool => 90.0 case UserInput => 85.0 case LlmInference => 55.0
  }

  function ScopePercent(s: Scope, isFact: bool): real {
    match s
    case File => if isFact then 60.0 else 92.0
    case Session => 82.0
    case Project => 68.0
    case Agent => 50.0
    case Global => if isFact then 80.0 else 45.0
  }

  function DaysOld(c: Claim, now: int): real {
    if c.validFrom >= now then 0.0 else (now - c.validFrom) as real / 86400000.0
  }

  lemma HoursAreDays(ms: real, hours: real, days: real)
    requires hours == days * 24.0 && days > 0.0
    ensures (ms / 3600000.0) / hours == (ms / 86400000.0) / days
  {
    assert (ms / 3600000.0) / hours == ms / (3600000.0 * hours);
    assert (ms / 86400000.0) / days == ms / (86400000.0 * days);
    assert 3600000.0 * hours == 86400000.0 * days;
  }

  lemma AgeInDays(c: Claim, now: int)
    ensures Age(c.validFrom, now, HalfLifeHours(c.pred, c.source)) == DaysOld(c, now) / SharesOf(c).days
  {
    if c.validFrom >= now {
      assert Max((now - c.validFrom) as real / 3600000.0, 0.0) == 0.0;
    } else {
      HoursAreDays((now - c.validFrom) as real, HalfLifeHours(c.pred, c.source), SharesOf(c).days);
    }
  }

  /** The two trusts together, no less than nothing and no more than full trust twice. */
  function BothTrusts(c: Claim): real {
    var sum := c.trust + TrustPercent(c.source) / 100.0;
    if sum < 0.0 then 0.0 else if sum > 2.0 then 2.0 else sum
  }

  /** A strength in percent. */
  lemma StrengthInPercent(c: Claim, now: int, decay: Decay)
    ensures var s := SharesOf(c);
            100.0 * ComputeBeliefStrength(c, now, decay) ==
            s.confidence * c.confidence + s.eachTrust * BothTrusts(c)
            + s.freshness * decay(DaysOld(c, now) / s.days) + s.scope * (ScopePercent(c.scope, c.pred.family == Fact) / 100.0)
  {
    AgeInDays(c, now);
    assert SourceTrust(c.source) == TrustPercent(c.source) / 100.0;
    assert EffectiveTrust(c) == BothTrusts(c) / 2.0;
    assert ComputeScopeWeight(c.scope, c.pred) == ScopePercent(c.scope, c.pred.family == Fact) / 100.0;
  }

  /* ---------- who wins ---------- */

  /** By how much the incoming claim is the stronger. */
  function Margin(incoming: Claim, existing: Claim, now: int, decay: Decay): real {
    ComputeBeliefStrength(incoming, now, decay) - ComputeBeliefStrength(existing, now, decay)
  }

  /** A preference or decision from the same kind of source that is strictly newer. */
  predicate Revises(incoming: Claim, existing: Claim) {
    && (incoming.pred.family == Preference || incoming.pred.family == Decision)
    && incoming.validFrom > existing.validFrom && incoming.source == existing.source
  }

  /** Twelve percent decide, on either side; a newer preference wins as soon as it is less than five percent behind. */
  lemma MarginDecides(incoming: Claim, existing: Claim, now: int, decay: Decay)
    ensures CompareBeliefs(incoming, existing, now, decay) == Incoming <==>
            Margin(incoming, existing, now, decay) >= 0.12 || (Revises(incoming, existing) && Margin(incoming, existing, now, decay) > -0.05)
    ensures CompareBeliefs(incoming, existing, now, decay) == Existing <==> Margin(incoming, existing, now, decay) <= -0.12
  {
  }

  /** A claim that is no newer, no more confident and no more trusted than one of its kind never wins against it. */
  lemma NoBetterNeverWins(incoming: Claim, existing: Claim, now: int, decay: Decay)
    requires Decays(decay)
    requires incoming.pred == existing.pred && incoming.scope == existing.scope && incoming.source == existing.source
    requires incoming.validFrom <= existing.validFrom && incoming.confidence <= existing.confidence && incoming.trust <= existing.trust
    ensures CompareBeliefs(incoming, existing, now, decay) != Incoming
  {
    NoWeaker(existing, incoming, now, decay);
  }
}
