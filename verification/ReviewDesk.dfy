/**
 The review desk as the program runs it (src/mitosis/approval.py,
 src/mitosis/experiment_grants.py and the other consumers of grants): tables held in fields,
 each operation one transaction
 that scans rows and updates them. Every method is tied to the transaction of `ReviewQueue`
 it performs, whose properties over whole runs are proved in `QueueRuns`, `GrantRuns` and `SpendRuns`.
 */
module ReviewDesk {
  import opened Basics
  import opened RiskTiers
  import opened ReviewQueue

  class Desk {
    var cells: map<nat, Cell>
    var proposals: map<nat, Proposal>
    var promotions: seq<Promotion>
    var operator: Operator
    var requests: seq<Request>
    var grants: seq<Grant>
    var wakes: set<WakeKey>
    var experiments: seq<Experiment>
    var calls: seq<nat>
    var actions: seq<nat>

    constructor (o: Operator)
      ensures State() == Empty(o)
    {
      cells, proposals, promotions, operator := map[], map[], [], o;
      requests, grants, wakes, experiments, calls, actions := [], [], {}, [], [], [];
    }

    function State(): Colony
      reads this
    {
      Colony(cells, proposals, promotions, operator, requests, grants, wakes, experiments, calls, actions)
    }

    /** `_window_requests` and the sum and count taken over it. */
    method WindowExposure(key: AggregationKey, since: int) returns (exposure: nat, count: nat)
      ensures exposure == LiveExposure(requests, key, since)
      ensures count == LiveCount(requests, key, since)
    {
      exposure, count := 0, 0;
      for i := 0 to |requests|
        invariant exposure == LiveExposure(requests[..i], key, since)
        invariant count == LiveCount(requests[..i], key, since)
      {
        assert requests[..i + 1][..i] == requests[..i];
        if Counts(requests[i], key, since) {
          exposure, count := exposure + requests[i].estimated, count + 1;
        }
      }
      assert requests[..|requests|] == requests;
    }

    method PendingFromLineage(founder: nat, since: int) returns (count: nat)
      ensures count == PendingFrom(requests, founder, since)
    {
      count := 0;
      for i := 0 to |requests|
        invariant count == PendingFrom(requests[..i], founder, since)
      {
        assert requests[..i + 1][..i] == requests[..i];
        if Floods(requests[i], founder, since) {
          count := count + 1;
        }
      }
      assert requests[..|requests|] == requests;
    }

    method HasRejectedTwin(founder: nat, summary: string) returns (found: bool)
      ensures found == RepeatsRejected(requests, founder, summary)
    {
      if summary == "" {
        return false;
      }
      for i := 0 to |requests|
        invariant forall k :: 0 <= k < i ==> !IsTwin(requests[k], founder, summary)
      {
        if IsTwin(requests[i], founder, summary) {
          return true;
        }
      }
      return false;
    }

    method AlreadyQueued(pid: nat) returns (found: bool)
      ensures found == Queued(requests, pid)
    {
      for i := 0 to |requests|
        invariant forall k :: 0 <= k < i ==> requests[k].proposal != pid
      {
        if requests[i].proposal == pid {
          return true;
        }
      }
      return false;
    }

    /** `_enqueue_locked`: exposure, facts, signals and tier, then one row. */
    method EnqueueLocked(pid: nat, overdue: nat, now: int) returns (failed: Option<Error>)
      modifies this`requests
      ensures match Enqueue(old(State()), pid, overdue, now)
              case Ok(c) => State() == c && failed == None
              case Err(e) => State() == old(State()) && failed == Some(e)
    {
      hide AssessedTier, Signals, KeyOf, Sla, Queued, LiveExposure, LiveCount, PendingFrom, RepeatsRejected, Reversible;
      if pid !in proposals {
        return Some(NoSuchProposal);
      }
      var p := proposals[pid];
      if p.kind == Abstain {
        return None;
      }
      var queued := AlreadyQueued(pid);
      if queued {
        return None;
      }
      if p.cell !in cells {
        return Some(UnknownCell);
      }
      var cell := cells[p.cell];
      var since := now - EXPOSURE_WINDOW_SECONDS;
      var key := KeyOf(p, cell.founder);
      var prior, count := WindowExposure(key, since);
      var pending := PendingFromLineage(cell.founder, since);
      var twin := HasRejectedTwin(cell.founder, p.summary);
      var facts := Facts(p.kind, cell.book, cell.status, p.estimated, prior + p.estimated, operator.alarm,
                         p.tool in READ_ONLY_TOOLS, p.channel in REGISTERED_CHANNELS,
                         count, pending, overdue, twin, cell.genomeClaim);
      var assessed := AssessedTier(facts, p.claimed);
      var sla := Sla(operator, assessed);
      requests := requests + [
        Request(pid, p.cell, cell.founder, key, p.claimed, assessed, prior + p.estimated,
                p.estimated, p.summary, Reversible(p.kind, cell.book), Signals(facts, p.claimed),
                now + sla, now + sla * EXPIRY_SLA_MULTIPLE, now, Pending, None, None, None)];
      return None;
    }

    method PendingOrRaise(rid: nat, now: int) returns (r: Result<Request, Error>)
      ensures r == Actionable(State(), rid, now)
    {
      if rid >= |requests| {
        return Err(NoSuchRequest);
      }
      if requests[rid].status != Pending {
        return Err(NotPending(requests[rid].status));
      }
      if now >= requests[rid].expiresAt {
        return Err(PastExpiry);
      }
      return Ok(requests[rid]);
    }

    method Approve(rid: nat, batch: Option<nat>, now: int) returns (failed: Option<Error>)
      modifies this`requests, this`grants, this`wakes
      ensures match DecideApprove(old(State()), rid, batch, now)
              case Ok(c) => State() == c && failed == None
              case Err(e) => State() == old(State()) && failed == Some(e)
    {
      var pending := PendingOrRaise(rid, now);
      if pending.Err? {
        return Some(pending.error);
      }
      var r := pending.value;
      if batch.Some? && !Batchable(r) {
        return Some(NotBatchable);
      }
      if Wakeable(State(), r.cell) {
        wakes := wakes + {HumanDecision(rid)};
      }
      requests := requests[rid := r.(status := Approved, decidedAt := Some(now), batch := batch)];
      grants := grants + [Grant(rid, r.proposal, r.cell, r.assessed, r.exposure, now, r.expiresAt, None, None, None)];
      return None;
    }

    method RejectRequest(rid: nat, now: int) returns (failed: Option<Error>)
      modifies this`requests, this`wakes
      ensures match Reject(old(State()), rid, now)
              case Ok(c) => State() == c && failed == None
              case Err(e) => State() == old(State()) && failed == Some(e)
    {
      var pending := PendingOrRaise(rid, now);
      if pending.Err? {
        return Some(pending.error);
      }
      var r := pending.value;
      if Wakeable(State(), r.cell) {
        wakes := wakes + {HumanDecision(rid)};
      }
      requests := requests[rid := r.(status := Rejected, decidedAt := Some(now))];
      return None;
    }

    /** `queue`: the pending rows in review order. */
    method Queue() returns (ids: seq<nat>)
      ensures ids == QueueOf(requests, |requests|)
      ensures Ids(requests, ids) && Sorted(requests, ids)
      ensures forall i: nat :: i in ids <==> i < |requests| && requests[i].status == Pending
    {
      ids := [];
      for i := 0 to |requests|
        invariant ids == QueueOf(requests, i)
      {
        if requests[i].status == Pending {
          ids := Insert(requests, i, ids);
        }
      }
    }

    /** The batchable rows among `ids`, in their order. */
    method BatchableAmong(ids: seq<nat>) returns (eligible: seq<nat>)
      requires Ids(requests, ids)
      ensures eligible == OnlyBatchable(requests, ids)
    {
      eligible := [];
      for i := 0 to |ids|
        invariant OnlyBatchable(requests, ids) == eligible + OnlyBatchable(requests, ids[i..])
      {
        assert ids[i..][1..] == ids[i + 1..];
        if Batchable(requests[ids[i]]) {
          eligible := eligible + [ids[i]];
        }
      }
      assert ids[|ids|..] == [];
    }

    /** `approve_batch`: one transaction an item; the first refusal stops the loop and leaves
        the approvals before it in place. */
    method ApproveInBatch(batch: nat, limit: Option<int>, now: int)
      returns (approved: seq<nat>, stopped: Option<Error>)
      modifies this`requests, this`grants, this`wakes
      ensures BatchResult(State(), approved, stopped) == ApproveBatch(old(State()), batch, limit, now)
    {
      hide DecideApprove, QueueOf, OnlyBatchable;
      var queued := Queue();
      var batchable := BatchableAmong(queued);
      var eligible := UpTo(batchable, limit);
      ghost var all := ApproveEach(State(), eligible, batch, now);
      approved, stopped := [], None;
      for i := 0 to |eligible|
        invariant stopped == None
        invariant var rest := ApproveEach(State(), eligible[i..], batch, now);
                  all == BatchResult(rest.colony, approved + rest.approved, rest.stopped)
      {
        assert eligible[i..][0] == eligible[i] && eligible[i..][1..] == eligible[i + 1..];
        stopped := Approve(eligible[i], Some(batch), now);
        if stopped.Some? {
          return;
        }
        approved := approved + [eligible[i]];
      }
      assert eligible[|eligible|..] == [];
    }

    /** `_expire_one`, which re-reads the row: a decision may have landed since the scan. */
    method ExpireRequest(i: nat, now: int)
      requires i < |requests|
      modifies this`requests, this`wakes
      ensures State() == ExpireOne(old(State()), i, now)
    {
      var r := requests[i];
      if r.status != Pending {
        return;
      }
      if Wakeable(State(), r.cell) {
        wakes := wakes + {ApprovalExpiry(i)};
        requests := requests[i := r.(status := Expired, decidedAt := Some(now),
                                     regenerated := Some(ApprovalExpiry(i)))];
      } else {
        requests := requests[i := r.(status := Expired, decidedAt := Some(now), regenerated := None)];
      }
    }

    /** `expire_due`. */
    method ExpireRequestsDue(now: int)
      modifies this`requests, this`wakes
      ensures State() == ExpireDue(old(State()), |old(requests)|, now)
    {
      for i := 0 to |requests|
        invariant |requests| == |old(requests)|
        invariant State() == ExpireDue(old(State()), i, now)
      {
        if RequestDue(requests[i], now) {
          ExpireRequest(i, now);
        }
      }
    }

    /** `_expire_one_grant`. */
    method ExpireGrant(i: nat, now: int)
      requires i < |grants|
      modifies this`grants, this`wakes
      ensures State() == ExpireOneGrant(old(State()), i, now)
    {
      var g := grants[i];
      if g.consumedAt.Some? || g.expiredAt.Some? {
        return;
      }
      if Regenerates(State(), g) {
        wakes := wakes + {GrantExpiry(i)};
        grants := grants[i := g.(expiredAt := Some(now), regenerated := Some(GrantExpiry(i)))];
      } else {
        grants := grants[i := g.(expiredAt := Some(now), regenerated := None)];
      }
    }

    /** `expire_grants_due`. */
    method ExpireUnconsumedGrants(now: int)
      modifies this`grants, this`wakes
      ensures State() == ExpireGrantsDue(old(State()), |old(grants)|, now)
    {
      for i := 0 to |grants|
        invariant |grants| == |old(grants)|
        invariant State() == ExpireGrantsDue(old(State()), i, now)
      {
        if GrantDue(grants[i], now) {
          ExpireGrant(i, now);
        }
      }
    }

    method HighestRung(cell: nat) returns (rung: nat)
      ensures rung == EntitledRung(promotions, cell)
    {
      rung := FLIGHT_SIMULATOR_RUNG;
      for i := 0 to |promotions|
        invariant rung == EntitledRung(promotions[..i], cell)
      {
        assert promotions[..i + 1][..i] == promotions[..i];
        if promotions[i].cell == cell && promotions[i].rung > rung {
          rung := promotions[i].rung;
        }
      }
      assert promotions[..|promotions|] == promotions;
    }

    method SlotsInUse(cell: nat) returns (running: nat, own: bool)
      ensures running == RunningCount(experiments) && own == IsRunning(experiments, cell)
    {
      running, own := 0, false;
      for i := 0 to |experiments|
        invariant running == RunningCount(experiments[..i])
        invariant own == IsRunning(experiments[..i], cell)
      {
        assert experiments[..i + 1][..i] == experiments[..i];
        assert experiments[..i + 1] == experiments[..i] + [experiments[i]];
        if experiments[i].running {
          running := running + 1;
          if experiments[i].cell == cell {
            own := true;
            assert experiments[..i + 1][i].running;
          }
        }
        assert IsRunning(experiments[..i + 1], cell)
            == (IsRunning(experiments[..i], cell) || (experiments[i].cell == cell && experiments[i].running)) by {
          ExtendRunning(experiments[..i], experiments[i], cell);
        }
      }
      assert experiments[..|experiments|] == experiments;
    }

    /** `experiments._start_locked`. */
    method OpenExperimentLocked(cell: nat, hypothesis: string, rung: int, proposal: Option<nat>)
      returns (failed: Option<Error>)
      modifies this`experiments
      ensures match OpenExperiment(old(State()), cell, hypothesis, rung, proposal)
              case Ok(c) => State() == c && failed == None
              case Err(e) => State() == old(State()) && failed == Some(e)
    {
      if hypothesis == "" {
        return Some(NoHypothesis);
      }
      if |hypothesis| > MAX_HYPOTHESIS_CHARS {
        return Some(HypothesisTooLong);
      }
      if !OnLadder(rung) {
        return Some(RungOutsideLadder);
      }
      if cell !in cells {
        return Some(UnknownCell);
      }
      if cells[cell].status != Alive {
        return Some(CellNotAlive);
      }
      var running, own := SlotsInUse(cell);
      if running >= operator.maxParallel {
        return Some(NoSlot);
      }
      if own {
        return Some(AlreadyRunning);
      }
      experiments := experiments + [Experiment.Experiment(cell, proposal, rung, true)];
      return None;
    }

    /** The checks that `start_from_grant`, `execute`, `allocate` and `claim` each make first. */
    method CheckGrant(gid: nat, kind: Kind, now: int) returns (failed: Option<Error>)
      ensures failed == Usable(State(), gid, kind, now)
    {
      if gid >= |grants| {
        return Some(NoSuchGrant);
      }
      var g := grants[gid];
      if g.consumedAt.Some? {
        return Some(AlreadyConsumed);
      }
      if now >= g.expiresAt {
        return Some(GrantPastExpiry);
      }
      if g.request >= |requests| || requests[g.request].status != Approved {
        return Some(RequestNotApproved);
      }
      if g.proposal !in proposals {
        return Some(NoSuchProposal);
      }
      if proposals[g.proposal].kind != kind {
        return Some(OtherKind);
      }
      return None;
    }

    /** `_start_from_grant_locked`: consume the grant and open the experiment, or neither. */
    method StartExperiment(gid: nat, now: int) returns (failed: Option<Error>)
      modifies this`grants, this`experiments
      ensures match StartFromGrant(old(State()), gid, now)
              case Ok(c) => State() == c && failed == None
              case Err(e) => State() == old(State()) && failed == Some(e)
    {
      hide OpenExperiment, RunningCount, IsRunning;
      failed := CheckGrant(gid, Kind.Experiment, now);
      if failed.Some? {
        return;
      }
      var g := grants[gid];
      if g.cell !in cells {
        return Some(UnknownCell);
      }
      var rung := HighestRung(g.cell);
      if !StatesHypothesis(proposals[g.proposal]) {
        return Some(MalformedExperiment);
      }
      grants := grants[gid := g.(consumedAt := Some(now))];
      failed := OpenExperimentLocked(g.cell, proposals[g.proposal].hypothesis.value, rung, Some(g.proposal));
      if failed.Some? {
        grants := grants[gid := g];
      }
    }

    /** `tools._claim_grant_locked`. */
    method RunToolFromGrant(gid: nat, wellFormed: bool, now: int) returns (failed: Option<Error>)
      modifies this`grants, this`calls
      ensures match RunTool(old(State()), gid, wellFormed, now)
              case Ok(c) => State() == c && failed == None
              case Err(e) => State() == old(State()) && failed == Some(e)
    {
      failed := CheckGrant(gid, ToolRequest, now);
      if failed.Some? {
        return;
      }
      if !wellFormed {
        return Some(RefusedOutside);
      }
      if grants[gid].cell !in cells {
        return Some(UnknownCell);
      }
      if !Wakeable(State(), grants[gid].cell) {
        return Some(CellMayNotAct);
      }
      grants := grants[gid := grants[gid].(consumedAt := Some(now))];
      calls := calls + [gid];
    }

    /** `_latest_promotion_at_rung_locked`. */
    method PredecessorOf(cell: nat) returns (predecessor: Option<nat>)
      ensures predecessor == LatestExpandable(promotions, |promotions|, cell)
    {
      predecessor := None;
      for i := 0 to |promotions|
        invariant predecessor == LatestExpandable(promotions, i, cell)
      {
        if Expandable(promotions, i, cell)
           && (predecessor.None? || promotions[predecessor.value].createdAt <= promotions[i].createdAt) {
          predecessor := Some(i);
        }
      }
    }

    /** `promotion.allocate`. */
    method AllocateFromGrant(gid: nat, rung: nat, funds: Funds, now: int) returns (failed: Option<Error>)
      modifies this`grants, this`promotions
      ensures match Allocate(old(State()), gid, rung, funds, now)
              case Ok(c) => State() == c && failed == None
              case Err(e) => State() == old(State()) && failed == Some(e)
    {
      hide Expandable;
      if rung != LIVE_EXPERIMENT_RUNG && rung != EXPANDED_PILOT_RUNG {
        return Some(RungNotIssuable);
      }
      failed := CheckGrant(gid, SpendRequest, now);
      if failed.Some? {
        return;
      }
      var g := grants[gid];
      var amount := proposals[g.proposal].estimated;
      if amount == 0 {
        return Some(NothingToAllocate);
      }
      if g.cell !in cells {
        return Some(UnknownCell);
      }
      if !Wakeable(State(), g.cell) {
        return Some(CellMayNotAct);
      }
      if !funds.flagsOn {
        return Some(RefusedOutside);
      }
      var predecessor: Option<nat> := None;
      if rung == EXPANDED_PILOT_RUNG {
        if !funds.reader {
          return Some(RefusedOutside);
        }
        predecessor := PredecessorOf(g.cell);
        if predecessor.None? {
          return Some(RungSkipped);
        }
        if !funds.supports {
          return Some(EvidenceRefused);
        }
      }
      if funds.pool < amount {
        return Some(PoolShort);
      }
      grants := grants[gid := g.(consumedAt := Some(now))];
      promotions := promotions + [Promotion.Promotion(gid, g.cell, rung, predecessor, now)];
    }

    /** `external_actions._claim_locked`, as far as the grant. */
    method ActFromGrant(gid: nat, wellFormed: bool, allowed: bool, now: int) returns (failed: Option<Error>)
      modifies this`grants, this`actions
      ensures match ActOutside(old(State()), gid, wellFormed, allowed, now)
              case Ok(c) => State() == c && failed == None
              case Err(e) => State() == old(State()) && failed == Some(e)
    {
      failed := CheckGrant(gid, ExternalAction, now);
      if failed.Some? {
        return;
      }
      if !wellFormed {
        return Some(RefusedOutside);
      }
      if grants[gid].cell !in cells {
        return Some(UnknownCell);
      }
      if !Wakeable(State(), grants[gid].cell) {
        return Some(CellMayNotAct);
      }
      if !allowed {
        return Some(RefusedOutside);
      }
      grants := grants[gid := grants[gid].(consumedAt := Some(now))];
      actions := actions + [gid];
    }
  }

  lemma ExtendRunning(es: seq<Experiment>, e: Experiment, cell: nat)
    ensures IsRunning(es + [e], cell) == (IsRunning(es, cell) || (e.cell == cell && e.running))
  {
    var all := es + [e];
    if e.cell == cell && e.running {
      assert all[|es|] == e;
    }
    if IsRunning(es, cell) {
      var i :| 0 <= i < |es| && es[i].cell == cell && es[i].running;
      assert all[i] == es[i];
    }
  }
}
