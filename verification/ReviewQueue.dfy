/**
 The approval queue and its grants (src/mitosis/approval.py), and what consumes a grant:
 experiments (src/mitosis/experiment_grants.py), tool calls (src/mitosis/tools.py),
 promotions (src/mitosis/promotion.py) and external actions
 (src/mitosis/external_actions.py). An operator may start an experiment without a grant
 (src/mitosis/experiments.py).

 A table is a sequence in insertion order and an id is a position in it. Times are seconds.
 Each function below is one transaction on the whole state; `ReviewDesk` performs the same
 transactions by scanning and updating its tables.
 */
module ReviewQueue {
  import opened Basics
  import opened RiskTiers

  const EXPOSURE_WINDOW_SECONDS := 86_400
  const EXPIRY_SLA_MULTIPLE := 4
  const FLIGHT_SIMULATOR_RUNG: nat := 1
  const TOP_RUNG: nat := 9
  const LIVE_EXPERIMENT_RUNG: nat := 7
  const EXPANDED_PILOT_RUNG: nat := 8
  const MAX_HYPOTHESIS_CHARS := 2_000
  const REGISTERED_CHANNELS := {"email", "marketplace_listing", "web_publish"}
  const READ_ONLY_TOOLS := {"http_get"}

  datatype Cell = Cell(founder: nat, book: Book, status: CellStatus, genomeClaim: Option<Tier>)

  /** `summary` is the normalised summary: casefolded, without punctuation. `hypothesis` is the
      trimmed hypothesis of an experiment payload, absent where the payload is malformed, and
      `artifact` what the payload of an external action delivers. */
  datatype Proposal = Proposal(
    cell: nat,
    kind: Kind,
    claimed: Option<Tier>,
    estimated: nat,
    summary: string,
    tool: string,
    channel: string,
    hypothesis: Option<string>,
    artifact: Option<nat>)

  datatype AggregationKey = ByChannel(channel: string) | ByLineage(founder: nat, kind: Kind)

  datatype Status = Pending | Approved | Rejected | Expired

  datatype WakeKey = HumanDecision(request: nat) | ApprovalExpiry(request: nat) | GrantExpiry(grant: nat)

  /** `estimated` and `summary` are the joined columns of the request's proposal. */
  datatype Request = Request(
    proposal: nat,
    cell: nat,
    founder: nat,
    key: AggregationKey,
    claimed: Option<Tier>,
    assessed: Tier,
    exposure: nat,
    estimated: nat,
    summary: string,
    reversible: bool,
    signals: set<Signal>,
    slaDue: int,
    expiresAt: int,
    createdAt: int,
    status: Status,
    decidedAt: Option<int>,
    batch: Option<nat>,
    regenerated: Option<WakeKey>)

  datatype Grant = Grant(
    request: nat,
    proposal: nat,
    cell: nat,
    tier: Tier,
    exposure: nat,
    grantedAt: int,
    expiresAt: int,
    consumedAt: Option<int>,
    expiredAt: Option<int>,
    regenerated: Option<WakeKey>)

  /** `proposal`: the one whose grant started it; an operator can start one without any. */
  datatype Experiment = Experiment(cell: nat, proposal: Option<nat>, rung: int, running: bool)

  /** `supersedes`: the live experiment that a pilot expands. */
  datatype Promotion = Promotion(grant: nat, cell: nat, rung: nat, supersedes: Option<nat>, createdAt: int)

  datatype Operator = Operator(alarm: nat, slaLow: nat, slaMedium: nat, slaHigh: nat, slaCritical: nat,
                               maxParallel: nat)

  /** `calls` and `actions` hold the grants of the tool calls and external actions, by row. */
  datatype Colony = Colony(
    cells: map<nat, Cell>,
    proposals: map<nat, Proposal>,
    promotions: seq<Promotion>,
    operator: Operator,
    requests: seq<Request>,
    grants: seq<Grant>,
    wakes: set<WakeKey>,
    experiments: seq<Experiment>,
    calls: seq<nat>,
    actions: seq<nat>)

  datatype Error =
    | NoSuchProposal
    | UnknownCell
    | NoSuchRequest
    | NotPending(status: Status)
    | PastExpiry
    | NotBatchable
    | NoSuchGrant
    | AlreadyConsumed
    | GrantPastExpiry
    | RequestNotApproved
    | OtherKind
    | MalformedExperiment
    | NoHypothesis
    | HypothesisTooLong
    | RungOutsideLadder
    | CellNotAlive
    | NoSlot
    | AlreadyRunning
    | CellMayNotAct
    | RefusedOutside
    | RungNotIssuable
    | NothingToAllocate
    | RungSkipped
    | EvidenceRefused
    | PoolShort

  // ---- reading the tables ---------------------------------------------------------

  predicate Live(r: Request) {
    r.status == Pending || r.status == Approved
  }

  /** `_window_requests`: the rows that still count as exposure on one key. */
  predicate Counts(r: Request, key: AggregationKey, since: int) {
    r.key == key && r.createdAt >= since && Live(r)
  }

  function LiveExposure(requests: seq<Request>, key: AggregationKey, since: int): nat {
    if requests == [] then 0
    else
      var r := requests[|requests| - 1];
      LiveExposure(requests[..|requests| - 1], key, since) + if Counts(r, key, since) then r.estimated else 0
  }

  function LiveCount(requests: seq<Request>, key: AggregationKey, since: int): nat {
    if requests == [] then 0
    else
      LiveCount(requests[..|requests| - 1], key, since)
      + if Counts(requests[|requests| - 1], key, since) then 1 else 0
  }

  predicate Floods(r: Request, founder: nat, since: int) {
    r.founder == founder && r.status == Pending && r.createdAt >= since
  }

  function PendingFrom(requests: seq<Request>, founder: nat, since: int): nat {
    if requests == [] then 0
    else
      PendingFrom(requests[..|requests| - 1], founder, since)
      + if Floods(requests[|requests| - 1], founder, since) then 1 else 0
  }

  predicate IsTwin(r: Request, founder: nat, summary: string) {
    r.founder == founder && r.status == Rejected && r.summary == summary
  }

  predicate RepeatsRejected(requests: seq<Request>, founder: nat, summary: string) {
    summary != "" && exists i :: 0 <= i < |requests| && IsTwin(requests[i], founder, summary)
  }

  predicate Queued(requests: seq<Request>, pid: nat) {
    exists i :: 0 <= i < |requests| && requests[i].proposal == pid
  }

  /** Running or asleep: it can be woken, handed a tool's result, funded, and act outside. */
  predicate Wakeable(c: Colony, cell: nat) {
    cell in c.cells && (c.cells[cell].status == Alive || c.cells[cell].status == Dormant)
  }

  function KeyOf(p: Proposal, founder: nat): AggregationKey {
    if p.kind == ExternalAction && p.channel != "" then ByChannel(p.channel) else ByLineage(founder, p.kind)
  }

  function Sla(o: Operator, t: Tier): nat {
    match t
    case Low => o.slaLow
    case Medium => o.slaMedium
    case High => o.slaHigh
    case Critical => o.slaCritical
  }

  // ---- enqueueing ------------------------------------------------------------------

  function FactsOf(c: Colony, p: Proposal, cell: Cell, overdue: nat, now: int): Facts {
    var since := now - EXPOSURE_WINDOW_SECONDS;
    var key := KeyOf(p, cell.founder);
    Facts(p.kind, cell.book, cell.status, p.estimated,
          LiveExposure(c.requests, key, since) + p.estimated,
          c.operator.alarm, p.tool in READ_ONLY_TOOLS, p.channel in REGISTERED_CHANNELS,
          LiveCount(c.requests, key, since),
          PendingFrom(c.requests, cell.founder, since),
          overdue,
          RepeatsRejected(c.requests, cell.founder, p.summary),
          cell.genomeClaim)
  }

  function NewRequest(c: Colony, pid: nat, p: Proposal, cell: Cell, overdue: nat, now: int): Request {
    var f := FactsOf(c, p, cell, overdue, now);
    var assessed := AssessedTier(f, p.claimed);
    var sla := Sla(c.operator, assessed);
    Request(pid, p.cell, cell.founder, KeyOf(p, cell.founder), p.claimed, assessed, f.exposure,
            p.estimated, p.summary, Reversible(p.kind, cell.book), Signals(f, p.claimed),
            now + sla, now + sla * EXPIRY_SLA_MULTIPLE, now, Pending, None, None, None)
  }

  /** `_enqueue_locked`. An abstention and a proposal already queued change nothing. */
  function Enqueue(c: Colony, pid: nat, overdue: nat, now: int): Result<Colony, Error> {
    if pid !in c.proposals then Err(NoSuchProposal)
    else
      var p := c.proposals[pid];
      if p.kind == Abstain || Queued(c.requests, pid) then Ok(c)
      else if p.cell !in c.cells then Err(UnknownCell)
      else Ok(c.(requests := c.requests + [NewRequest(c, pid, p, c.cells[p.cell], overdue, now)]))
  }

  // ---- decisions -------------------------------------------------------------------

  predicate Batchable(r: Request) {
    r.assessed == Low && r.reversible && r.signals == {}
  }

  /** `_pending_or_raise_locked`. */
  function Actionable(c: Colony, rid: nat, now: int): Result<Request, Error> {
    if rid >= |c.requests| then Err(NoSuchRequest)
    else if c.requests[rid].status != Pending then Err(NotPending(c.requests[rid].status))
    else if now >= c.requests[rid].expiresAt then Err(PastExpiry)
    else Ok(c.requests[rid])
  }

  function NewGrant(rid: nat, r: Request, now: int): Grant {
    Grant(rid, r.proposal, r.cell, r.assessed, r.exposure, now, r.expiresAt, None, None, None)
  }

  function DecisionWake(c: Colony, rid: nat, cell: nat): set<WakeKey> {
    if Wakeable(c, cell) then {HumanDecision(rid)} else {}
  }

  /** `_decide_approve`, individually or as part of a batch. */
  function DecideApprove(c: Colony, rid: nat, batch: Option<nat>, now: int): Result<Colony, Error> {
    match Actionable(c, rid, now)
    case Err(e) => Err(e)
    case Ok(r) =>
      if batch.Some? && !Batchable(r) then Err(NotBatchable)
      else
        Ok(c.(requests := c.requests[rid := r.(status := Approved, decidedAt := Some(now), batch := batch)],
              grants := c.grants + [NewGrant(rid, r, now)],
              wakes := c.wakes + DecisionWake(c, rid, r.cell)))
  }

  /** `reject`. */
  function Reject(c: Colony, rid: nat, now: int): Result<Colony, Error> {
    match Actionable(c, rid, now)
    case Err(e) => Err(e)
    case Ok(r) =>
      Ok(c.(requests := c.requests[rid := r.(status := Rejected, decidedAt := Some(now))],
            wakes := c.wakes + DecisionWake(c, rid, r.cell)))
  }

  // ---- the queue and the batch -------------------------------------------------------

  /** `queue`'s order: tier descending, then SLA due time, then insertion order. */
  predicate Before(requests: seq<Request>, i: nat, j: nat)
    requires i < |requests| && j < |requests|
  {
    var a, b := requests[i], requests[j];
    || Order(a.assessed) > Order(b.assessed)
    || (a.assessed == b.assessed && (a.slaDue < b.slaDue || (a.slaDue == b.slaDue && i < j)))
  }

  predicate Ids(requests: seq<Request>, ids: seq<nat>) {
    forall k :: 0 <= k < |ids| ==> ids[k] < |requests|
  }

  ghost predicate Sorted(requests: seq<Request>, ids: seq<nat>)
    requires Ids(requests, ids)
  {
    forall k, l :: 0 <= k < l < |ids| ==> Before(requests, ids[k], ids[l])
  }

  function Insert(requests: seq<Request>, i: nat, ids: seq<nat>): seq<nat>
    requires i < |requests| && Ids(requests, ids)
  {
    if ids == [] || Before(requests, i, ids[0]) then [i] + ids
    else [ids[0]] + Insert(requests, i, ids[1..])
  }

  lemma BeforeIsAnOrder(requests: seq<Request>, i: nat, j: nat, k: nat)
    requires i < |requests| && j < |requests| && k < |requests|
    ensures i != j && !Before(requests, i, j) ==> Before(requests, j, i)
    ensures Before(requests, i, j) && Before(requests, j, k) ==> Before(requests, i, k)
  {}

  lemma {:induction false} InsertSorts(requests: seq<Request>, i: nat, ids: seq<nat>)
    requires i < |requests| && Ids(requests, ids) && Sorted(requests, ids) && i !in ids
    ensures var r := Insert(requests, i, ids);
            && Ids(requests, r) && Sorted(requests, r)
            && |r| == |ids| + 1
            && (forall x :: x in r <==> x == i || x in ids)
  {
    hide Before;
    if ids == [] {
    } else if Before(requests, i, ids[0]) {
      forall k | 0 < k < |ids| ensures Before(requests, i, ids[k]) {
        BeforeIsAnOrder(requests, i, ids[0], ids[k]);
      }
    } else {
      BeforeIsAnOrder(requests, i, ids[0], i);
      InsertSorts(requests, i, ids[1..]);
      var rest := Insert(requests, i, ids[1..]);
      assert ids == [ids[0]] + ids[1..];
      forall k | 0 <= k < |rest| ensures Before(requests, ids[0], rest[k]) {
        assert rest[k] in rest;
      }
    }
  }

  /** `queue`: the pending requests among the first `n`, most urgent first. */
  function QueueOf(requests: seq<Request>, n: nat): (ids: seq<nat>)
    requires n <= |requests|
    ensures Ids(requests, ids) && Sorted(requests, ids)
    ensures forall i: nat :: i in ids <==> i < n && requests[i].status == Pending
  {
    if n == 0 then []
    else
      var rest := QueueOf(requests, n - 1);
      if requests[n - 1].status == Pending then
        InsertSorts(requests, n - 1, rest);
        Insert(requests, n - 1, rest)
      else rest
  }

  function OnlyBatchable(requests: seq<Request>, ids: seq<nat>): (r: seq<nat>)
    requires Ids(requests, ids)
    ensures Ids(requests, r)
  {
    if ids == [] then []
    else if Batchable(requests[ids[0]]) then [ids[0]] + OnlyBatchable(requests, ids[1..])
    else OnlyBatchable(requests, ids[1..])
  }

  /** Python's `s[:limit]`, negative limits included. */
  function UpTo(ids: seq<nat>, limit: Option<int>): seq<nat> {
    if limit.None? then ids
    else if limit.value >= 0 then ids[..Min(limit.value, |ids|)]
    else ids[..Max(0, |ids| + limit.value)]
  }

  function Eligible(c: Colony, limit: Option<int>): seq<nat> {
    UpTo(OnlyBatchable(c.requests, QueueOf(c.requests, |c.requests|)), limit)
  }

  /** What a batch left behind: the state, the requests it approved, and the exception that
      stopped it, if one did. Each approval commits on its own. */
  datatype BatchResult = BatchResult(colony: Colony, approved: seq<nat>, stopped: Option<Error>)

  function ApproveEach(c: Colony, ids: seq<nat>, batch: nat, now: int): BatchResult
    decreases |ids|
  {
    if ids == [] then BatchResult(c, [], None)
    else
      match DecideApprove(c, ids[0], Some(batch), now)
      case Err(e) => BatchResult(c, [], Some(e))
      case Ok(c') =>
        var rest := ApproveEach(c', ids[1..], batch, now);
        BatchResult(rest.colony, [ids[0]] + rest.approved, rest.stopped)
  }

  /** `approve_batch`. */
  function ApproveBatch(c: Colony, batch: nat, limit: Option<int>, now: int): BatchResult {
    ApproveEach(c, Eligible(c, limit), batch, now)
  }

  // ---- the two expiry sweeps -----------------------------------------------------------

  predicate RequestDue(r: Request, now: int) {
    r.status == Pending && r.expiresAt <= now
  }

  function ExpiredRequest(c: Colony, i: nat, r: Request, now: int): Request {
    r.(status := Expired, decidedAt := Some(now),
       regenerated := if Wakeable(c, r.cell) then Some(ApprovalExpiry(i)) else None)
  }

  /** `_expire_one`: a request decided since the scan is left alone. */
  function ExpireOne(c: Colony, i: nat, now: int): Colony
    requires i < |c.requests|
  {
    var r := c.requests[i];
    if r.status != Pending then c
    else c.(requests := c.requests[i := ExpiredRequest(c, i, r, now)],
            wakes := c.wakes + if Wakeable(c, r.cell) then {ApprovalExpiry(i)} else {})
  }

  /** `expire_due` over the first `n` rows. */
  function ExpireDue(c: Colony, n: nat, now: int): (c': Colony)
    requires n <= |c.requests|
    ensures |c'.requests| == |c.requests|
  {
    if n == 0 then c
    else
      var before := ExpireDue(c, n - 1, now);
      if RequestDue(before.requests[n - 1], now) then ExpireOne(before, n - 1, now) else before
  }

  predicate GrantDue(g: Grant, now: int) {
    g.consumedAt.None? && g.expiredAt.None? && g.expiresAt <= now
  }

  predicate IsStatement(c: Colony, pid: nat) {
    pid in c.proposals && (c.proposals[pid].kind == Strategy || c.proposals[pid].kind == Deliverable)
  }

  predicate Regenerates(c: Colony, g: Grant) {
    Wakeable(c, g.cell) && !IsStatement(c, g.proposal)
  }

  /** `_expire_one_grant`. */
  function ExpireOneGrant(c: Colony, i: nat, now: int): Colony
    requires i < |c.grants|
  {
    var g := c.grants[i];
    if g.consumedAt.Some? || g.expiredAt.Some? then c
    else
      c.(grants := c.grants[i := g.(expiredAt := Some(now),
                                    regenerated := if Regenerates(c, g) then Some(GrantExpiry(i)) else None)],
         wakes := c.wakes + if Regenerates(c, g) then {GrantExpiry(i)} else {})
  }

  /** `expire_grants_due` over the first `n` rows. */
  function ExpireGrantsDue(c: Colony, n: nat, now: int): (c': Colony)
    requires n <= |c.grants|
    ensures |c'.grants| == |c.grants|
  {
    if n == 0 then c
    else
      var before := ExpireGrantsDue(c, n - 1, now);
      if GrantDue(before.grants[n - 1], now) then ExpireOneGrant(before, n - 1, now) else before
  }

  // ---- consuming a grant ----------------------------------------------------------------

  /** What every consumer of a grant asks first, in this order. None of them asks whether a
      sweep already expired it. */
  function Usable(c: Colony, gid: nat, kind: Kind, now: int): (failed: Option<Error>)
    ensures failed.None? ==> gid < |c.grants| && c.grants[gid].proposal in c.proposals
  {
    if gid >= |c.grants| then Some(NoSuchGrant)
    else
      var g := c.grants[gid];
      if g.consumedAt.Some? then Some(AlreadyConsumed)
      else if now >= g.expiresAt then Some(GrantPastExpiry)
      else if g.request >= |c.requests| || c.requests[g.request].status != Approved then Some(RequestNotApproved)
      else if g.proposal !in c.proposals then Some(NoSuchProposal)
      else if c.proposals[g.proposal].kind != kind then Some(OtherKind)
      else None
  }

  function Consume(c: Colony, gid: nat, now: int): Colony
    requires gid < |c.grants|
  {
    c.(grants := c.grants[gid := c.grants[gid].(consumedAt := Some(now))])
  }

  // ---- an experiment, from a grant or typed by an operator --------------------------------

  /** `entitled_rung`: the highest promotion, never below the flight simulator. */
  function EntitledRung(promotions: seq<Promotion>, cell: nat): nat {
    if promotions == [] then FLIGHT_SIMULATOR_RUNG
    else
      var p := promotions[|promotions| - 1];
      var rest := EntitledRung(promotions[..|promotions| - 1], cell);
      if p.cell == cell && p.rung > rest then p.rung else rest
  }

  function RunningCount(experiments: seq<Experiment>): nat {
    if experiments == [] then 0
    else
      RunningCount(experiments[..|experiments| - 1])
      + if experiments[|experiments| - 1].running then 1 else 0
  }

  predicate IsRunning(experiments: seq<Experiment>, cell: nat) {
    exists i :: 0 <= i < |experiments| && experiments[i].cell == cell && experiments[i].running
  }

  predicate StatesHypothesis(p: Proposal) {
    p.hypothesis.Some? && p.hypothesis.value != ""
  }

  predicate OnLadder(rung: int) {
    FLIGHT_SIMULATOR_RUNG <= rung <= TOP_RUNG
  }

  /** `experiments._start_locked`: every start passes these checks, whatever it came from. */
  function OpenExperiment(c: Colony, cell: nat, hypothesis: string, rung: int, proposal: Option<nat>):
    Result<Colony, Error>
  {
    if hypothesis == "" then Err(NoHypothesis)
    else if |hypothesis| > MAX_HYPOTHESIS_CHARS then Err(HypothesisTooLong)
    else if !OnLadder(rung) then Err(RungOutsideLadder)
    else if cell !in c.cells then Err(UnknownCell)
    else if c.cells[cell].status != Alive then Err(CellNotAlive)
    else if RunningCount(c.experiments) >= c.operator.maxParallel then Err(NoSlot)
    else if IsRunning(c.experiments, cell) then Err(AlreadyRunning)
    else Ok(c.(experiments := c.experiments + [Experiment.Experiment(cell, proposal, rung, true)]))
  }

  /** `_start_from_grant_locked`: the rung is read from the promotions, never asked for. */
  function StartFromGrant(c: Colony, gid: nat, now: int): Result<Colony, Error> {
    var failed := Usable(c, gid, Kind.Experiment, now);
    if failed.Some? then Err(failed.value)
    else
      var g := c.grants[gid];
      var p := c.proposals[g.proposal];
      if g.cell !in c.cells then Err(UnknownCell)
      else if !StatesHypothesis(p) then Err(MalformedExperiment)
      else
        OpenExperiment(Consume(c, gid, now), g.cell, p.hypothesis.value, EntitledRung(c.promotions, g.cell),
                       Some(g.proposal))
  }

  // ---- a tool call, an allocation, an external action --------------------------------------

  /** `tools._claim_grant_locked`. `wellFormed`: the request names a tool and arguments that
      validate, the tool's autonomy flag is on and its address is on the allowlist. */
  function RunTool(c: Colony, gid: nat, wellFormed: bool, now: int): Result<Colony, Error> {
    var failed := Usable(c, gid, ToolRequest, now);
    if failed.Some? then Err(failed.value)
    else if !wellFormed then Err(RefusedOutside)
    else if c.grants[gid].cell !in c.cells then Err(UnknownCell)
    else if !Wakeable(c, c.grants[gid].cell) then Err(CellMayNotAct)
    else Ok(Consume(c, gid, now).(calls := c.calls + [gid]))
  }

  predicate Expanded(promotions: seq<Promotion>, p: nat) {
    exists i :: 0 <= i < |promotions| && promotions[i].supersedes == Some(p)
  }

  /** A live-experiment promotion of this Cell that no pilot has expanded yet. */
  predicate Expandable(promotions: seq<Promotion>, p: nat, cell: nat) {
    && p < |promotions| && promotions[p].cell == cell && promotions[p].rung == LIVE_EXPERIMENT_RUNG
    && !Expanded(promotions, p)
  }

  /** `_latest_promotion_at_rung_locked` over the first `n` rows; of equal times the later row. */
  function LatestExpandable(promotions: seq<Promotion>, n: nat, cell: nat): (r: Option<nat>)
    requires n <= |promotions|
    ensures r.Some? ==> r.value < n && Expandable(promotions, r.value, cell)
    ensures r.None? ==> forall p: nat :: p < n ==> !Expandable(promotions, p, cell)
    ensures r.Some? ==>
              forall p: nat :: p < n && Expandable(promotions, p, cell) ==>
                && promotions[p].createdAt <= promotions[r.value].createdAt
                && (p > r.value ==> promotions[p].createdAt < promotions[r.value].createdAt)
  {
    if n == 0 then None
    else
      var before := LatestExpandable(promotions, n - 1, cell);
      if Expandable(promotions, n - 1, cell)
         && (before.None? || promotions[before.value].createdAt <= promotions[n - 1].createdAt) then Some(n - 1)
      else before
  }

  /** What an allocation is told by the tables not modelled here: whether the autonomy flags it
      needs are on, whether it was given a reader of evidence and what that said of the
      predecessor, and what the promotion pool holds. */
  datatype Funds = Funds(flagsOn: bool, reader: bool, supports: bool, pool: int)

  /** `_allocate_locked`: capital against an approved spend request, at rung 7 or at rung 8. */
  function Allocate(c: Colony, gid: nat, rung: nat, funds: Funds, now: int): Result<Colony, Error> {
    if rung != LIVE_EXPERIMENT_RUNG && rung != EXPANDED_PILOT_RUNG then Err(RungNotIssuable)
    else
      var failed := Usable(c, gid, SpendRequest, now);
      if failed.Some? then Err(failed.value)
      else
        var g := c.grants[gid];
        var amount := c.proposals[g.proposal].estimated;
        var before :=
          if rung == EXPANDED_PILOT_RUNG then LatestExpandable(c.promotions, |c.promotions|, g.cell) else None;
        if amount == 0 then Err(NothingToAllocate)
        else if g.cell !in c.cells then Err(UnknownCell)
        else if !Wakeable(c, g.cell) then Err(CellMayNotAct)
        else if !funds.flagsOn then Err(RefusedOutside)
        else if rung == EXPANDED_PILOT_RUNG && !funds.reader then Err(RefusedOutside)
        else if rung == EXPANDED_PILOT_RUNG && before.None? then Err(RungSkipped)
        else if rung == EXPANDED_PILOT_RUNG && !funds.supports then Err(EvidenceRefused)
        else if funds.pool < amount then Err(PoolShort)
        else
          Ok(Consume(c, gid, now).(
            promotions := c.promotions + [Promotion.Promotion(gid, g.cell, rung, before, now)]))
  }

  /** `external_actions._claim_locked`, as far as the grant. `wellFormed`: the payload names a
      registered channel. `allowed`: the registry and the artifact checks let it through. */
  function ActOutside(c: Colony, gid: nat, wellFormed: bool, allowed: bool, now: int): Result<Colony, Error> {
    var failed := Usable(c, gid, ExternalAction, now);
    if failed.Some? then Err(failed.value)
    else if !wellFormed then Err(RefusedOutside)
    else if c.grants[gid].cell !in c.cells then Err(UnknownCell)
    else if !Wakeable(c, c.grants[gid].cell) then Err(CellMayNotAct)
    else if !allowed then Err(RefusedOutside)
    else Ok(Consume(c, gid, now).(actions := c.actions + [gid]))
  }

  // ---- runs ----------------------------------------------------------------------------------

  /** Every write transaction on the queue, and everything the rest of the colony may do between
      them. One approval of a batch and one row of a sweep are transactions of their own, so a
      run may put anything between two of them, or stop there. */
  datatype Op =
    | DoEnqueue(pid: nat, overdue: nat, now: int)
    | DoApprove(rid: nat, batch: Option<nat>, now: int)
    | DoReject(rid: nat, now: int)
    | DoExpire(rid: nat, now: int)
    | DoExpireGrant(gid: nat, now: int)
    | DoStart(gid: nat, now: int)
    | DoRunTool(gid: nat, wellFormed: bool, now: int)
    | DoAllocate(gid: nat, rung: nat, funds: Funds, now: int)
    | DoAct(gid: nat, wellFormed: bool, allowed: bool, now: int)
    | DoStartDirectly(cell: nat, hypothesis: string, typedRung: int)
    | NewCell(cell: nat, row: Cell)
    | SetStatus(cell: nat, status: CellStatus)
    | NewProposal(pid: nat, proposal: Proposal)
    | SetOperator(operator: Operator)
    | Conclude(experiment: nat)

  function OrKeep(c: Colony, r: Result<Colony, Error>): Colony {
    if r.Ok? then r.value else c
  }

  /** One row of the request sweep: a row that the scan found due and nobody decided since. */
  function ExpireIfDue(c: Colony, i: nat, now: int): Colony {
    if i < |c.requests| && RequestDue(c.requests[i], now) then ExpireOne(c, i, now) else c
  }

  /** One row of the grant sweep. */
  function ExpireGrantIfDue(c: Colony, i: nat, now: int): Colony {
    if i < |c.grants| && GrantDue(c.grants[i], now) then ExpireOneGrant(c, i, now) else c
  }

  function Next(c: Colony, op: Op): Colony {
    match op
    case DoEnqueue(pid, overdue, now) => OrKeep(c, Enqueue(c, pid, overdue, now))
    case DoApprove(rid, batch, now) => OrKeep(c, DecideApprove(c, rid, batch, now))
    case DoReject(rid, now) => OrKeep(c, Reject(c, rid, now))
    case DoExpire(rid, now) => ExpireIfDue(c, rid, now)
    case DoExpireGrant(gid, now) => ExpireGrantIfDue(c, gid, now)
    case DoStart(gid, now) => OrKeep(c, StartFromGrant(c, gid, now))
    case DoRunTool(gid, wellFormed, now) => OrKeep(c, RunTool(c, gid, wellFormed, now))
    case DoAllocate(gid, rung, funds, now) => OrKeep(c, Allocate(c, gid, rung, funds, now))
    case DoAct(gid, wellFormed, allowed, now) => OrKeep(c, ActOutside(c, gid, wellFormed, allowed, now))
    case DoStartDirectly(cell, hypothesis, rung) => OrKeep(c, OpenExperiment(c, cell, hypothesis, rung, None))
    case NewCell(cell, row) => if cell in c.cells then c else c.(cells := c.cells[cell := row])
    case SetStatus(cell, status) =>
      if cell in c.cells then c.(cells := c.cells[cell := c.cells[cell].(status := status)]) else c
    case NewProposal(pid, p) => if pid in c.proposals then c else c.(proposals := c.proposals[pid := p])
    case SetOperator(o) => c.(operator := o)
    case Conclude(e) =>
      if e < |c.experiments| then c.(experiments := c.experiments[e := c.experiments[e].(running := false)]) else c
  }

  function Run(c: Colony, ops: seq<Op>): Colony
    decreases |ops|
  {
    if ops == [] then c else Run(Next(c, ops[0]), ops[1..])
  }

  function Empty(operator: Operator): Colony {
    Colony(map[], map[], [], operator, [], [], {}, [], [], [])
  }
}
