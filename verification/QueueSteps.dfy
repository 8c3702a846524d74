/**
 What each decision and each row of a sweep does to the queue, whole, and what the rows of every
 run say about when they were decided.
 */
module QueueSteps {
  import opened Basics
  import opened RiskTiers
  import opened ReviewQueue
  import opened QueueRuns
  import opened GrantRuns
  import opened SpendRuns

  /** Of the rows at most this one is new, and of the wakes at most this one, which is there
      exactly when its Cell is running or asleep. */
  ghost predicate RowAndWake(c: Colony, c': Colony, rid: nat, row: Request, wake: WakeKey)
    requires rid < |c.requests|
  {
    && |c'.requests| == |c.requests| && c'.requests[rid] == row
    && (forall i :: 0 <= i < |c.requests| && i != rid ==> c'.requests[i] == c.requests[i])
    && (forall k :: k in c'.wakes <==>
          || k in c.wakes
          || (k == wake && row.cell in c.cells && c.cells[row.cell].status in {Alive, Dormant}))
  }

  /** What a batch may take: LOW, with a way back, and nothing suspicious about it. */
  predicate TakenBy(r: Request, batch: Option<nat>) {
    batch == None || (r.assessed == Low && r.reversible && r.signals == {})
  }

  predicate Unmarked(g: Grant, rid: nat) {
    g.request == rid && g.consumedAt == None && g.expiredAt == None && g.regenerated == None
  }

  /** An approval goes through exactly for an open row that its batch may take. It then decides
      that row, issues one grant on the row's own terms and tells the Cell. */
  lemma ApprovalIsExact(c: Colony, rid: nat, batch: Option<nat>, now: int)
    ensures var c' := Next(c, DoApprove(rid, batch, now));
            if !StillOpen(c, rid, now) || !TakenBy(c.requests[rid], batch) then c' == c
            else
              var r := c.requests[rid];
              && RowAndWake(c, c', rid, r.(status := Approved, decidedAt := Some(now), batch := batch),
                            HumanDecision(rid))
              && |c'.grants| == |c.grants| + 1 && c'.grants[..|c.grants|] == c.grants
              && IsOnTerms(c'.grants[|c.grants|], c'.requests[rid]) && Unmarked(c'.grants[|c.grants|], rid)
              && c' == c.(requests := c'.requests, grants := c'.grants, wakes := c'.wakes)
  {}

  /** A rejection goes through for any open row, decides it and tells the Cell. */
  lemma RejectionIsExact(c: Colony, rid: nat, now: int)
    ensures var c' := Next(c, DoReject(rid, now));
            if !StillOpen(c, rid, now) then c' == c
            else
              && RowAndWake(c, c', rid, c.requests[rid].(status := Rejected, decidedAt := Some(now)),
                            HumanDecision(rid))
              && c' == c.(requests := c'.requests, wakes := c'.wakes)
  {}

  /** Why a decision is refused. */
  lemma RefusalsAreExact(c: Colony, rid: nat, batch: Option<nat>, now: int)
    ensures Reject(c, rid, now) == Err(NoSuchRequest) <==> rid >= |c.requests|
    ensures forall s :: Reject(c, rid, now) == Err(NotPending(s)) <==>
                          rid < |c.requests| && c.requests[rid].status == s && s != Pending
    ensures Reject(c, rid, now) == Err(PastExpiry) <==>
              rid < |c.requests| && c.requests[rid].status == Pending && c.requests[rid].expiresAt <= now
    ensures Reject(c, rid, now).Err? ==> DecideApprove(c, rid, batch, now) == Err(Reject(c, rid, now).error)
    ensures DecideApprove(c, rid, batch, now) == Err(NotBatchable) <==>
              StillOpen(c, rid, now) && !TakenBy(c.requests[rid], batch)
  {}

  /** One row of the request sweep: exactly a pending row that has run out. One that was decided
      since the sweep's scan is left alone, whatever the scan saw. */
  lemma ExpiryIsExact(c: Colony, rid: nat, now: int)
    ensures rid < |c.requests| && c.requests[rid].status != Pending ==> ExpireOne(c, rid, now) == c
    ensures var c' := Next(c, DoExpire(rid, now));
            if rid < |c.requests| && c.requests[rid].status == Pending && c.requests[rid].expiresAt <= now then
              var r := c.requests[rid];
              var told := r.cell in c.cells && c.cells[r.cell].status in {Alive, Dormant};
              && RowAndWake(c, c', rid,
                            r.(status := Expired, decidedAt := Some(now),
                               regenerated := if told then Some(ApprovalExpiry(rid)) else None),
                            ApprovalExpiry(rid))
              && c' == c.(requests := c'.requests, wakes := c'.wakes)
            else c' == c
  {}

  /** One row of the grant sweep: exactly a grant that ran out unused. A strategy or a deliverable
      was never going to be used, so its Cell is not told. One used or expired since the scan is
      left alone. */
  lemma GrantExpiryIsExact(c: Colony, gid: nat, now: int)
    ensures gid < |c.grants| && (c.grants[gid].consumedAt != None || c.grants[gid].expiredAt != None) ==>
              ExpireOneGrant(c, gid, now) == c
    ensures var c' := Next(c, DoExpireGrant(gid, now));
            if gid < |c.grants| && c.grants[gid].consumedAt == None && c.grants[gid].expiredAt == None
               && c.grants[gid].expiresAt <= now
            then
              var g := c.grants[gid];
              var told := MayAct(c, gid)
                          && !(g.proposal in c.proposals && c.proposals[g.proposal].kind in {Strategy, Deliverable});
              && |c'.grants| == |c.grants|
              && (forall h :: 0 <= h < |c.grants| && h != gid ==> c'.grants[h] == c.grants[h])
              && c'.grants[gid] == g.(expiredAt := Some(now),
                                      regenerated := if told then Some(GrantExpiry(gid)) else None)
              && (forall k :: k in c'.wakes <==> k in c.wakes || (k == GrantExpiry(gid) && told))
              && c' == c.(grants := c'.grants, wakes := c'.wakes)
            else c' == c
  {}

  /** A row of the graver tier; `b` is the less urgent of two different ones. */
  predicate Graver(a: Tier, b: Tier) {
    match b
    case Low => a != Low
    case Medium => a == High || a == Critical
    case High => a == Critical
    case Critical => false
  }

  /** The queue lists each pending row once: the graver tier first, then the earlier due time, then
      the row that was there first. */
  lemma QueueIsUrgentFirst(requests: seq<Request>, k: nat, l: nat)
    requires k < l < |QueueOf(requests, |requests|)|
    ensures var ids := QueueOf(requests, |requests|);
            var a, b := requests[ids[k]], requests[ids[l]];
            && a.status == Pending && b.status == Pending
            && (if a.assessed != b.assessed then Graver(a.assessed, b.assessed)
                else if a.slaDue != b.slaDue then a.slaDue < b.slaDue
                else ids[k] < ids[l])
  {
    var ids := QueueOf(requests, |requests|);
    hide QueueOf;
    assert ids[k] in ids && ids[l] in ids;
    assert Before(requests, ids[k], ids[l]);
  }

  // ---- why a consumer of a grant is refused --------------------------------------------------------

  /** A grant that cannot be used, by the first thing wrong with it: it is not there, used up, past
      its time, for a request that is not approved, or for another kind. */
  lemma GrantRefusals(o: Operator, ops: seq<Op>, gid: nat, kind: Kind, now: int)
    ensures var c := Run(Empty(o), ops); var why := Usable(c, gid, kind, now);
            && (why == None <==> InForce(c, gid, kind, now))
            && (why == Some(NoSuchGrant) <==> gid >= |c.grants|)
            && (gid < |c.grants| ==>
                  var g := c.grants[gid];
                  && (why == Some(AlreadyConsumed) <==> g.consumedAt != None)
                  && (why == Some(GrantPastExpiry) <==> g.consumedAt == None && g.expiresAt <= now)
                  && (why == Some(OtherKind) <==>
                        && g.consumedAt == None && now < g.expiresAt
                        && !(g.proposal in c.proposals && c.proposals[g.proposal].kind == kind))
                  && why != Some(RequestNotApproved) && why != Some(NoSuchProposal))
  {
    EmptyKeepsAccount(o);
    RunKeepsAccount(Empty(o), ops);
    hide Run;
    var c := Run(Empty(o), ops);
    if gid < |c.grants| { assert GrantOk(c, c.grants[gid]); }
  }

  /** A start with a usable grant, by the first thing in its way. */
  lemma StartRefusals(c: Colony, gid: nat, now: int)
    requires InForce(c, gid, Kind.Experiment, now)
    ensures var r := StartFromGrant(c, gid, now);
            var cell := c.grants[gid].cell;
            var stated := c.proposals[c.grants[gid].proposal].hypothesis;
            var fits := stated.Some? && 0 < |stated.value| <= 2_000;
            var rung := EntitledRung(c.promotions, cell);
            var runs := cell in c.cells && c.cells[cell].status == Alive;
            && (r == Err(UnknownCell) <==> cell !in c.cells)
            && (r == Err(MalformedExperiment) <==> cell in c.cells && (stated == None || stated == Some("")))
            && (r == Err(HypothesisTooLong) <==> cell in c.cells && stated.Some? && |stated.value| > 2_000)
            && (r == Err(RungOutsideLadder) <==> cell in c.cells && fits && !(1 <= rung <= 9))
            && (r == Err(CellNotAlive) <==> cell in c.cells && fits && 1 <= rung <= 9 && !runs)
            && (r == Err(NoSlot) <==>
                  fits && 1 <= rung <= 9 && runs && |Running(c.experiments)| >= c.operator.maxParallel)
            && (r == Err(AlreadyRunning) <==>
                  && fits && 1 <= rung <= 9 && runs && |Running(c.experiments)| < c.operator.maxParallel
                  && exists e :: 0 <= e < |c.experiments| && c.experiments[e].cell == cell
                                 && c.experiments[e].running)
  {
    RunningIsTheSet(c.experiments);
    hide EntitledRung, RunningCount, Running;
  }

  /** A tool call or an external action with a usable grant, by the first thing in its way. */
  lemma ActRefusals(c: Colony, gid: nat, wellFormed: bool, allowed: bool, now: int)
    ensures InForce(c, gid, ToolRequest, now) ==>
              var r := RunTool(c, gid, wellFormed, now);
              && (r == Err(RefusedOutside) <==> !wellFormed)
              && (r == Err(UnknownCell) <==> wellFormed && c.grants[gid].cell !in c.cells)
              && (r == Err(CellMayNotAct) <==> wellFormed && c.grants[gid].cell in c.cells && !MayAct(c, gid))
    ensures InForce(c, gid, ExternalAction, now) ==>
              var r := ActOutside(c, gid, wellFormed, allowed, now);
              && (r == Err(RefusedOutside) <==> !wellFormed || (MayAct(c, gid) && !allowed))
              && (r == Err(UnknownCell) <==> wellFormed && c.grants[gid].cell !in c.cells)
              && (r == Err(CellMayNotAct) <==> wellFormed && c.grants[gid].cell in c.cells && !MayAct(c, gid))
  {}

  /** An allocation, by the first thing in its way: the rung asked for before the grant is read. */
  lemma AllocationRefusals(c: Colony, gid: nat, rung: nat, funds: Funds, now: int)
    ensures Allocate(c, gid, rung, funds, now) == Err(RungNotIssuable) <==> rung != 7 && rung != 8
    ensures (rung == 7 || rung == 8) && InForce(c, gid, SpendRequest, now) ==>
              var r := Allocate(c, gid, rung, funds, now);
              var amount := c.proposals[c.grants[gid].proposal].estimated;
              var stands := AnyExpandable(c.promotions, c.grants[gid].cell);
              var known := amount > 0 && c.grants[gid].cell in c.cells;
              var clear := known && MayAct(c, gid) && funds.flagsOn && (rung == 8 ==> funds.reader);
              && (r == Err(NothingToAllocate) <==> amount == 0)
              && (r == Err(UnknownCell) <==> amount > 0 && c.grants[gid].cell !in c.cells)
              && (r == Err(CellMayNotAct) <==> known && !MayAct(c, gid))
              && (r == Err(RefusedOutside) <==>
                    known && MayAct(c, gid) && !(funds.flagsOn && (rung == 8 ==> funds.reader)))
              && (r == Err(RungSkipped) <==> clear && rung == 8 && !stands)
              && (r == Err(EvidenceRefused) <==> clear && rung == 8 && stands && !funds.supports)
              && (r == Err(PoolShort) <==>
                    clear && (rung == 8 ==> stands && funds.supports) && funds.pool < amount)
  {
    if gid < |c.grants| { AnyExpandableExactly(c.promotions, c.grants[gid].cell); }
    hide Expandable, AnyExpandable, LatestExpandable;
  }

  // ---- when rows were decided -------------------------------------------------------------------

  /** Decided when its status says, by a person in time or by a sweep too late; in a batch only as
      a batch may; and told of its expiry exactly when it says so. */
  ghost predicate Timely(c: Colony, i: nat)
    requires i < |c.requests|
  {
    var r := c.requests[i];
    && (r.status == Pending <==> r.decidedAt == None)
    && (r.status == Approved || r.status == Rejected ==> r.decidedAt.value < r.expiresAt)
    && (r.status == Expired ==> r.expiresAt <= r.decidedAt.value)
    && (r.batch.Some? ==> r.status == Approved && TakenBy(r, r.batch))
    && (r.regenerated == None || (r.regenerated == Some(ApprovalExpiry(i)) && r.status == Expired))
    && (ApprovalExpiry(i) in c.wakes <==> r.regenerated.Some?)
    && (HumanDecision(i) in c.wakes ==> r.status == Approved || r.status == Rejected)
  }

  ghost predicate AllTimely(c: Colony) {
    && (forall i: nat :: i < |c.requests| ==> Timely(c, i))
    && (forall k: WakeKey :: k in c.wakes ==>
          match k
          case HumanDecision(r) => r < |c.requests|
          case ApprovalExpiry(r) => r < |c.requests|
          case GrantExpiry(g) => g < |c.grants|)
  }

  lemma RowKeepsTimely(c: Colony, c': Colony, rid: nat, row: Request, wake: WakeKey)
    requires AllTimely(c) && rid < |c.requests| && c.requests[rid].status == Pending
    requires RowAndWake(c, c', rid, row, wake) && |c.grants| <= |c'.grants|
    requires row.status != Pending && row.decidedAt.Some? && (row.batch.Some? ==> TakenBy(row, row.batch))
    requires if row.status == Expired then
               && wake == ApprovalExpiry(rid) && row.expiresAt <= row.decidedAt.value && row.batch == None
               && row.regenerated == if row.cell in c.cells && c.cells[row.cell].status in {Alive, Dormant}
                                     then Some(ApprovalExpiry(rid)) else None
             else
               && wake == HumanDecision(rid) && row.decidedAt.value < row.expiresAt && row.regenerated == None
               && (row.batch.Some? ==> row.status == Approved)
    ensures AllTimely(c')
  {
    assert Timely(c, rid);
    hide TakenBy;
    forall i: nat | i < |c'.requests| ensures Timely(c', i) {
      assert Timely(c, i);
    }
  }

  lemma GrantsKeepTimely(c: Colony, c': Colony)
    requires AllTimely(c) && c'.requests == c.requests && |c.grants| <= |c'.grants|
    requires forall k :: k in c'.wakes <==> k in c.wakes || (k.GrantExpiry? && k in c'.wakes)
    requires forall k: WakeKey :: k.GrantExpiry? && k in c'.wakes ==> k.grant < |c'.grants|
    ensures AllTimely(c')
  {
    forall i: nat | i < |c'.requests| ensures Timely(c', i) {
      assert Timely(c, i);
    }
  }

  lemma ApprovalKeepsTimely(c: Colony, rid: nat, batch: Option<nat>, now: int)
    requires AllTimely(c)
    ensures AllTimely(Next(c, DoApprove(rid, batch, now)))
  {
    var c' := Next(c, DoApprove(rid, batch, now));
    ApprovalIsExact(c, rid, batch, now);
    if c' != c {
      assert Timely(c, rid);
      hide Next, AllTimely, RowAndWake;
      RowKeepsTimely(c, c', rid, c.requests[rid].(status := Approved, decidedAt := Some(now), batch := batch),
                     HumanDecision(rid));
    }
  }

  lemma RejectionKeepsTimely(c: Colony, rid: nat, now: int)
    requires AllTimely(c)
    ensures AllTimely(Next(c, DoReject(rid, now)))
  {
    var c' := Next(c, DoReject(rid, now));
    RejectionIsExact(c, rid, now);
    if c' != c {
      assert Timely(c, rid);
      hide Next, AllTimely, RowAndWake;
      RowKeepsTimely(c, c', rid, c.requests[rid].(status := Rejected, decidedAt := Some(now)), HumanDecision(rid));
    }
  }

  lemma ExpiryKeepsTimely(c: Colony, rid: nat, now: int)
    requires AllTimely(c)
    ensures AllTimely(Next(c, DoExpire(rid, now)))
  {
    var c' := Next(c, DoExpire(rid, now));
    ExpiryIsExact(c, rid, now);
    if c' != c {
      assert Timely(c, rid);
      hide Next, AllTimely, RowAndWake;
      var r := c.requests[rid];
      var told := r.cell in c.cells && c.cells[r.cell].status in {Alive, Dormant};
      RowKeepsTimely(c, c', rid,
                     r.(status := Expired, decidedAt := Some(now),
                        regenerated := if told then Some(ApprovalExpiry(rid)) else None),
                     ApprovalExpiry(rid));
    }
  }

  lemma EnqueueKeepsTimely(c: Colony, pid: nat, overdue: nat, now: int)
    requires AllTimely(c)
    ensures AllTimely(Next(c, DoEnqueue(pid, overdue, now)))
  {
    var c' := Next(c, DoEnqueue(pid, overdue, now));
    hide FactsOf, Signals, AssessedTier, Reversible;
    forall i: nat | i < |c'.requests| ensures Timely(c', i) {
      if i < |c.requests| { assert Timely(c, i); }
    }
  }

  lemma NextKeepsTimely(c: Colony, op: Op)
    requires AllTimely(c)
    ensures AllTimely(Next(c, op))
  {
    if op.DoApprove? {
      ApprovalKeepsTimely(c, op.rid, op.batch, op.now);
    } else if op.DoReject? {
      RejectionKeepsTimely(c, op.rid, op.now);
    } else if op.DoExpire? {
      ExpiryKeepsTimely(c, op.rid, op.now);
    } else if op.DoEnqueue? {
      EnqueueKeepsTimely(c, op.pid, op.overdue, op.now);
    } else if op.DoExpireGrant? {
      GrantExpiryIsExact(c, op.gid, op.now);
      hide Next, AllTimely;
      GrantsKeepTimely(c, Next(c, op));
    } else if Spends(op) || op.DoStartDirectly? {
      SpendingLeavesQueue(c, op);
      NewGrantStep(c, op);
      hide Next, AllTimely;
      GrantsKeepTimely(c, Next(c, op));
    } else {
      hide AllTimely;
      GrantsKeepTimely(c, Next(c, op));
    }
  }

  lemma {:induction false} RunKeepsTimely(c: Colony, ops: seq<Op>)
    requires AllTimely(c)
    ensures AllTimely(Run(c, ops))
    decreases |ops|
  {
    if ops == [] {
    } else {
      hide Next, AllTimely;
      NextKeepsTimely(c, ops[0]);
      RunKeepsTimely(Next(c, ops[0]), ops[1..]);
    }
  }

  /** In every run a row was approved or rejected before it ran out, or expired after, and by a
      batch only as LOW, reversible and unsuspicious; and its Cell was told of an expiry exactly
      when the row says so. */
  lemma DecisionsAreTimely(o: Operator, ops: seq<Op>, i: nat)
    requires i < |Run(Empty(o), ops).requests|
    ensures Timely(Run(Empty(o), ops), i)
  {
    RunKeepsTimely(Empty(o), ops);
    hide Run, Timely;
  }
}
