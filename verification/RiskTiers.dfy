/**
 How the kernel classifies one request (src/mitosis/approval.py, `_kernel_tier` to
 `_detect_signals`): from facts the Cell does not control, with its claims folded in
 upward only.
 */
module RiskTiers {
  import opened Basics

  const SPLIT_MIN_REQUESTS := 3
  const QUEUE_FLOOD_PENDING_LIMIT: nat := 5
  const SELECTIVE_EVIDENCE_OVERDUE_LIMIT := 3

  datatype Tier = Low | Medium | High | Critical

  datatype Kind =
    | Experiment
    | Strategy
    | SpendRequest
    | ToolRequest
    | ExternalAction
    | Deliverable
    | Abstain

  datatype Book = UsdReal | UsdSim | Resource

  datatype Signal =
    | ActionSplitting
    | QueueFlooding
    | UnderstatedRisk
    | SelectiveEvidence
    | RepeatAfterRejection

  /** Every input to a classification except the Cell's own claim for this proposal. */
  datatype Facts = Facts(
    kind: Kind,
    book: Book,
    status: CellStatus,
    estimated: nat,
    exposure: int,
    alarm: nat,
    toolIsReadOnly: bool,
    channelIsRegistered: bool,
    priorRequests: nat,
    pendingInLineage: nat,
    overduePredictions: nat,
    repeatsRejected: bool,
    genomeClaim: Option<Tier>)

  function Order(t: Tier): nat {
    match t
    case Low => 0
    case Medium => 1
    case High => 2
    case Critical => 3
  }

  predicate AtLeast(a: Tier, b: Tier) {
    Order(a) >= Order(b)
  }

  function MaxTier(left: Tier, right: Tier): Tier {
    if Order(left) >= Order(right) then left else right
  }

  function Escalate(t: Tier): Tier {
    match t
    case Low => Medium
    case Medium => High
    case High => Critical
    case Critical => Critical
  }

  /** A tier's exposure threshold in half alarms: 0.5, 1 and 4 times the alarm. */
  function HalfAlarms(t: Tier): nat {
    match t
    case Low => 0
    case Medium => 1
    case High => 2
    case Critical => 8
  }

  predicate Reaches(exposure: int, alarm: nat, t: Tier) {
    2 * exposure >= HalfAlarms(t) * alarm
  }

  function ExposureTier(exposure: int, alarm: nat): Tier {
    if Reaches(exposure, alarm, Critical) then Critical
    else if Reaches(exposure, alarm, High) then High
    else if Reaches(exposure, alarm, Medium) then Medium
    else Low
  }

  function KindTier(f: Facts): Tier {
    match f.kind
    case SpendRequest => if f.book == UsdReal then High else Medium
    case ToolRequest => if f.toolIsReadOnly then Medium else High
    case ExternalAction => if f.channelIsRegistered then High else Critical
    case _ => Low
  }

  function KernelTier(f: Facts): Tier {
    var tier := KindTier(f);
    var tier := if f.status == Quarantined then MaxTier(tier, High) else tier;
    MaxTier(tier, ExposureTier(f.exposure, f.alarm))
  }

  predicate Reversible(kind: Kind, book: Book) {
    kind != ExternalAction && !(kind == SpendRequest && book == UsdReal)
  }

  predicate SplitsAction(f: Facts) {
    && f.priorRequests + 1 >= SPLIT_MIN_REQUESTS
    && Order(ExposureTier(f.exposure, f.alarm)) > Order(ExposureTier(f.estimated, f.alarm))
  }

  predicate UnderstatesRisk(f: Facts, claim: Option<Tier>) {
    || (claim.Some? && Order(claim.value) < Order(KernelTier(f)))
    || (f.kind == SpendRequest && f.estimated == 0)
  }

  function Signals(f: Facts, claim: Option<Tier>): set<Signal> {
    (if SplitsAction(f) then {ActionSplitting} else {})
    + (if f.pendingInLineage >= QUEUE_FLOOD_PENDING_LIMIT then {QueueFlooding} else {})
    + (if UnderstatesRisk(f, claim) then {UnderstatedRisk} else {})
    + (if f.overduePredictions >= SELECTIVE_EVIDENCE_OVERDUE_LIMIT then {SelectiveEvidence} else {})
    + (if f.repeatsRejected then {RepeatAfterRejection} else {})
  }

  /** `understated_risk` is derived from the assessment, so it alone does not escalate. */
  predicate Escalates(signals: set<Signal>) {
    signals - {UnderstatedRisk} != {}
  }

  function FoldClaim(t: Tier, claim: Option<Tier>): Tier {
    if claim.Some? then MaxTier(t, claim.value) else t
  }

  function AssessedTier(f: Facts, claim: Option<Tier>): Tier {
    var tier := FoldClaim(FoldClaim(KernelTier(f), claim), f.genomeClaim);
    if Escalates(Signals(f, claim)) then Escalate(tier) else tier
  }

  predicate BatchableAs(f: Facts, claim: Option<Tier>) {
    AssessedTier(f, claim) == Low && Reversible(f.kind, f.book) && Signals(f, claim) == {}
  }

  // ---- a Cell cannot buy a lower review ----------------------------------------------

  /** An absent claim stands at the bottom of the order of claims. */
  predicate ClaimAtMost(a: Option<Tier>, b: Option<Tier>) {
    a.None? || (b.Some? && AtLeast(b.value, a.value))
  }

  /** Whether to escalate does not depend on what was claimed. */
  lemma EscalationIgnoresClaims(f: Facts, a: Option<Tier>, b: Option<Tier>)
    ensures Escalates(Signals(f, a)) == Escalates(Signals(f, b))
  {
    assert Signals(f, a) - {UnderstatedRisk} == Signals(f, b) - {UnderstatedRisk};
  }

  /** The assessment is never below the kernel's own tier or either of the Cell's claims. */
  lemma NeverLowered(f: Facts, claim: Option<Tier>)
    ensures AtLeast(AssessedTier(f, claim), KernelTier(f))
    ensures claim.Some? ==> AtLeast(AssessedTier(f, claim), claim.value)
    ensures f.genomeClaim.Some? ==> AtLeast(AssessedTier(f, claim), f.genomeClaim.value)
  {
    var tier := FoldClaim(FoldClaim(KernelTier(f), claim), f.genomeClaim);
    assert AtLeast(Escalate(tier), tier);
  }

  lemma ExposureRaisesKernelTier(f: Facts, f': Facts)
    requires f.exposure <= f'.exposure && f' == f.(exposure := f'.exposure, genomeClaim := f'.genomeClaim)
    ensures AtLeast(ExposureTier(f'.exposure, f.alarm), ExposureTier(f.exposure, f.alarm))
    ensures AtLeast(KernelTier(f'), KernelTier(f))
    ensures SplitsAction(f) ==> SplitsAction(f')
  {}

  lemma FoldIsMonotone(t: Tier, t': Tier, claim: Option<Tier>, claim': Option<Tier>)
    requires AtLeast(t', t) && ClaimAtMost(claim, claim')
    ensures AtLeast(FoldClaim(t', claim'), FoldClaim(t, claim))
  {}

  lemma MoreSignalsEscalate(f: Facts, f': Facts, claim: Option<Tier>, claim': Option<Tier>)
    requires f' == f.(exposure := f'.exposure, genomeClaim := f'.genomeClaim)
    requires SplitsAction(f) ==> SplitsAction(f')
    ensures Escalates(Signals(f, claim)) ==> Escalates(Signals(f', claim'))
  {
    assert Signals(f, claim) - {UnderstatedRisk} <= Signals(f', claim') - {UnderstatedRisk};
  }

  /** Raising a claim, the genome's claim or the exposure never lowers the assessment. */
  lemma AssessmentIsMonotone(f: Facts, f': Facts, claim: Option<Tier>, claim': Option<Tier>)
    requires ClaimAtMost(claim, claim') && ClaimAtMost(f.genomeClaim, f'.genomeClaim)
    requires f.exposure <= f'.exposure
    requires f' == f.(exposure := f'.exposure, genomeClaim := f'.genomeClaim)
    ensures AtLeast(AssessedTier(f', claim'), AssessedTier(f, claim))
  {
    ExposureRaisesKernelTier(f, f');
    MoreSignalsEscalate(f, f', claim, claim');
    FoldIsMonotone(KernelTier(f), KernelTier(f'), claim, claim');
    var folded, folded' := FoldClaim(KernelTier(f), claim), FoldClaim(KernelTier(f'), claim');
    FoldIsMonotone(folded, folded', f.genomeClaim, f'.genomeClaim);
    EscalateIsMonotone(FoldClaim(folded, f.genomeClaim), FoldClaim(folded', f'.genomeClaim));
  }

  lemma EscalateIsMonotone(t: Tier, t': Tier)
    requires AtLeast(t', t)
    ensures AtLeast(Escalate(t'), Escalate(t)) && AtLeast(Escalate(t'), t)
  {}

  /** A claim opens no door: with it the request is batchable exactly when it would be with
      no claim at all and the claim is not above LOW. */
  lemma ClaimsBuyNoBatch(f: Facts, claim: Option<Tier>)
    ensures BatchableAs(f, claim) <==> BatchableAs(f, None) && (claim.None? || claim.value == Low)
  {
    EscalationIgnoresClaims(f, claim, None);
    NeverLowered(f, claim);
    NeverLowered(f, None);
    if BatchableAs(f, None) && claim.Some? && claim.value == Low {
      assert Signals(f, claim) == Signals(f, None);
    }
    if BatchableAs(f, claim) {
      assert Signals(f, None) <= Signals(f, claim);
    }
  }

  predicate IsInert(kind: Kind) {
    kind == Experiment || kind == Strategy || kind == Deliverable || kind == Abstain
  }

  /** The kernel's own tier, from above and below: CRITICAL only for an unknown channel or four
      alarms of exposure, HIGH and up exactly for what cannot be undone, an acting tool, a
      restricted Cell or one alarm, LOW exactly for what neither spends nor reaches outside. */
  lemma KernelTierExactly(f: Facts)
    ensures KernelTier(f) == Critical <==>
              (f.kind == ExternalAction && !f.channelIsRegistered) || f.exposure >= 4 * f.alarm
    ensures AtLeast(KernelTier(f), High) <==>
              || !Reversible(f.kind, f.book) || (f.kind == ToolRequest && !f.toolIsReadOnly)
              || f.status == Quarantined || f.exposure >= f.alarm
    ensures KernelTier(f) == Low <==> IsInert(f.kind) && f.status != Quarantined && 2 * f.exposure < f.alarm
  {
    assert Reaches(f.exposure, f.alarm, Critical) <==> f.exposure >= 4 * f.alarm;
    assert Reaches(f.exposure, f.alarm, High) <==> f.exposure >= f.alarm;
    assert Reaches(f.exposure, f.alarm, Medium) <==> 2 * f.exposure >= f.alarm;
  }

  /** What a batch can hold, in the facts alone: no signal can fire without one of these. */
  lemma BatchableExactly(f: Facts, claim: Option<Tier>)
    requires 0 <= f.estimated <= f.exposure
    ensures BatchableAs(f, claim) <==>
              && IsInert(f.kind) && f.status != Quarantined && 2 * f.exposure < f.alarm
              && (claim.None? || claim.value == Low) && (f.genomeClaim.None? || f.genomeClaim.value == Low)
              && f.pendingInLineage < QUEUE_FLOOD_PENDING_LIMIT
              && f.overduePredictions < SELECTIVE_EVIDENCE_OVERDUE_LIMIT && !f.repeatsRejected
  {
    KernelTierExactly(f);
    NeverLowered(f, claim);
    var s := Signals(f, claim);
    if IsInert(f.kind) && 2 * f.exposure < f.alarm {
      assert ExposureTier(f.exposure, f.alarm) == Low && !SplitsAction(f);
    }
    assert QueueFlooding in s <==> f.pendingInLineage >= QUEUE_FLOOD_PENDING_LIMIT;
    assert SelectiveEvidence in s <==> f.overduePredictions >= SELECTIVE_EVIDENCE_OVERDUE_LIMIT;
    assert RepeatAfterRejection in s <==> f.repeatsRejected;
    assert ActionSplitting in s <==> SplitsAction(f);
    assert UnderstatedRisk in s <==> UnderstatesRisk(f, claim);
    NoSignal(s);
  }

  lemma NoSignal(s: set<Signal>)
    ensures s == {} <==>
              && ActionSplitting !in s && QueueFlooding !in s && UnderstatedRisk !in s
              && SelectiveEvidence !in s && RepeatAfterRejection !in s
  {
    if s != {} {
      var x :| x in s;
      assert x.ActionSplitting? || x.QueueFlooding? || x.UnderstatedRisk? || x.SelectiveEvidence?
          || x.RepeatAfterRejection?;
    }
  }

  // ---- the whole classification in the facts -----------------------------------------------

  /** What asks for CRITICAL, for HIGH or more, and for MEDIUM or more, in the facts and the
      Cell's two claims. */
  predicate AsksCritical(f: Facts, claim: Option<Tier>) {
    || (f.kind == ExternalAction && !f.channelIsRegistered) || f.exposure >= 4 * f.alarm
    || claim == Some(Critical) || f.genomeClaim == Some(Critical)
  }

  predicate AsksHigh(f: Facts, claim: Option<Tier>) {
    || f.kind == ExternalAction || (f.kind == SpendRequest && f.book == UsdReal)
    || (f.kind == ToolRequest && !f.toolIsReadOnly) || f.status == Quarantined || f.exposure >= f.alarm
    || claim == Some(High) || f.genomeClaim == Some(High) || AsksCritical(f, claim)
  }

  predicate AsksMedium(f: Facts, claim: Option<Tier>) {
    || f.kind == SpendRequest || f.kind == ToolRequest || 2 * f.exposure >= f.alarm
    || claim == Some(Medium) || f.genomeClaim == Some(Medium) || AsksHigh(f, claim)
  }

  /** The exposure is over one of the three thresholds and this request alone is not. */
  predicate Crosses(f: Facts) {
    || 2 * f.estimated < f.alarm <= 2 * f.exposure
    || f.estimated < f.alarm <= f.exposure
    || f.estimated < 4 * f.alarm <= f.exposure
  }

  lemma SplittingIsExact(f: Facts)
    ensures SplitsAction(f) <==> f.priorRequests >= 2 && Crosses(f)
  {
    TiersByThreshold(f.exposure, f.alarm);
    TiersByThreshold(f.estimated, f.alarm);
  }

  lemma TiersByThreshold(exposure: int, alarm: nat)
    ensures ExposureTier(exposure, alarm) == Critical <==> exposure >= 4 * alarm
    ensures ExposureTier(exposure, alarm) in {High, Critical} <==> exposure >= alarm
    ensures ExposureTier(exposure, alarm) != Low <==> 2 * exposure >= alarm
  {
    assert Reaches(exposure, alarm, Critical) <==> exposure >= 4 * alarm;
    assert Reaches(exposure, alarm, High) <==> exposure >= alarm;
    assert Reaches(exposure, alarm, Medium) <==> 2 * exposure >= alarm;
  }

  lemma KernelByReasons(f: Facts)
    ensures var g := f.(genomeClaim := None);
            && (KernelTier(f) == Critical <==> AsksCritical(g, None))
            && (KernelTier(f) in {High, Critical} <==> AsksHigh(g, None))
            && (KernelTier(f) != Low <==> AsksMedium(g, None))
  {
    TiersByThreshold(f.exposure, f.alarm);
  }

  /** Each signal fires exactly on its own condition: the third request of a window that takes
      the exposure over a threshold, five pending, a claim below what the kernel asks for or a
      spend of nothing, three predictions overdue, a rejected summary. */
  lemma SignalsAreExact(f: Facts, claim: Option<Tier>)
    ensures var s := Signals(f, claim); var g := f.(genomeClaim := None);
            && (ActionSplitting in s <==> f.priorRequests >= 2 && Crosses(f))
            && (QueueFlooding in s <==> f.pendingInLineage >= 5)
            && (UnderstatedRisk in s <==>
                  || (claim == Some(Low) && AsksMedium(g, None))
                  || (claim == Some(Medium) && AsksHigh(g, None))
                  || (claim == Some(High) && AsksCritical(g, None))
                  || (f.kind == SpendRequest && f.estimated == 0))
            && (SelectiveEvidence in s <==> f.overduePredictions >= 3)
            && (RepeatAfterRejection in s <==> f.repeatsRejected)
  {
    SplittingIsExact(f);
    KernelByReasons(f);
    hide KernelTier, SplitsAction, AsksMedium, AsksHigh, AsksCritical, Crosses;
  }

  /** A sign of abuse: any signal but the one that reads the claim. */
  predicate Suspicious(f: Facts) {
    || (f.priorRequests >= 2 && Crosses(f)) || f.pendingInLineage >= 5 || f.overduePredictions >= 3
    || f.repeatsRejected
  }

  lemma EscalatesWhenSuspicious(f: Facts, claim: Option<Tier>)
    ensures Escalates(Signals(f, claim)) <==> Suspicious(f)
  {
    SignalsAreExact(f, claim);
    var s := Signals(f, claim) - {UnderstatedRisk};
    NoSignal(s);
    hide Signals, Crosses, AsksMedium, AsksHigh, AsksCritical;
  }

  /** The assessed tier, whole: the highest tier that anything asks for, and one step above it,
      never past CRITICAL, when anything is suspicious. */
  lemma AssessmentIsExact(f: Facts, claim: Option<Tier>)
    ensures var t, up := AssessedTier(f, claim), Suspicious(f);
            && (t == Critical <==> AsksCritical(f, claim) || (up && AsksHigh(f, claim)))
            && (t in {High, Critical} <==> AsksHigh(f, claim) || (up && AsksMedium(f, claim)))
            && (t != Low <==> AsksMedium(f, claim) || up)
  {
    KernelByReasons(f);
    EscalatesWhenSuspicious(f, claim);
    hide KernelTier, Signals, Suspicious;
  }

  /** Assessed below tier `t` only while the whole exposure is below `t`'s threshold. */
  lemma BelowThreshold(f: Facts, claim: Option<Tier>, t: Tier)
    requires t != Low && !AtLeast(AssessedTier(f, claim), t)
    ensures 2 * f.exposure < HalfAlarms(t) * f.alarm
  {
    NeverLowered(f, claim);
    assert AtLeast(KernelTier(f), ExposureTier(f.exposure, f.alarm));
  }
}
