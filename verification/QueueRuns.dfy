/**
 What every run of the approval queue keeps: how requests may change, how much a lineage can
 get approved below a tier, how many it can have batched, and how grants and wakes pair off.
 */
module QueueRuns {
  import opened Basics
  import opened RiskTiers
  import opened ReviewQueue

  // ---- how a request may change ------------------------------------------------------

  /** The one change a row undergoes: out of PENDING, once, and everything assessed stays. */
  ghost predicate Decided(r: Request, r': Request) {
    && r' == r.(status := r'.status, decidedAt := r'.decidedAt, batch := r'.batch, regenerated := r'.regenerated)
    && (r.status != Pending ==> r' == r)
  }

  ghost predicate Evolves(c: Colony, c': Colony) {
    && |c.requests| <= |c'.requests|
    && (forall i :: 0 <= i < |c.requests| ==> Decided(c.requests[i], c'.requests[i]))
  }

  ghost predicate SameLength(c: Colony, c': Colony) {
    |c.requests| == |c'.requests|
  }

  lemma {:induction false} ExpireDueFrame(c: Colony, n: nat, now: int)
    requires n <= |c.requests|
    ensures var c' := ExpireDue(c, n, now); c' == c.(requests := c'.requests, wakes := c'.wakes)
  {
    if n == 0 {
    } else {
      ExpireDueFrame(c, n - 1, now);
    }
  }

  lemma SameCellsSameWakes(c: Colony, c': Colony)
    requires c'.cells == c.cells && c'.proposals == c.proposals
    ensures forall cell :: Wakeable(c', cell) == Wakeable(c, cell)
    ensures forall g :: Regenerates(c', g) == Regenerates(c, g)
  {}

  lemma {:induction false} ExpireDueRow(c: Colony, n: nat, now: int, i: nat)
    requires n <= |c.requests| && i < |c.requests|
    ensures ExpireDue(c, n, now).requests[i]
         == if i < n && RequestDue(c.requests[i], now) then ExpiredRequest(c, i, c.requests[i], now) else c.requests[i]
  {
    if n == 0 {
    } else {
      ExpireDueRow(c, n - 1, now, i);
      ExpireDueFrame(c, n - 1, now);
      SameCellsSameWakes(c, ExpireDue(c, n - 1, now));
      hide Wakeable;
    }
  }

  lemma ExpireStepWake(c: Colony, n: nat, now: int, k: WakeKey)
    requires n < |c.requests|
    ensures var before := ExpireDue(c, n, now);
            k in ExpireDue(c, n + 1, now).wakes <==>
              || k in before.wakes
              || (k == ApprovalExpiry(n) && RequestDue(before.requests[n], now)
                  && Wakeable(before, before.requests[n].cell))
  {
    hide Wakeable;
  }

  lemma {:induction false} ExpireDueWake(c: Colony, n: nat, now: int, k: WakeKey)
    requires n <= |c.requests|
    ensures k in ExpireDue(c, n, now).wakes <==>
              || k in c.wakes
              || (k.ApprovalExpiry? && k.request < n && RequestDue(c.requests[k.request], now)
                  && Wakeable(c, c.requests[k.request].cell))
  {
    if n == 0 {
    } else {
      ExpireDueWake(c, n - 1, now, k);
      ExpireDueRow(c, n - 1, now, n - 1);
      ExpireDueFrame(c, n - 1, now);
      SameCellsSameWakes(c, ExpireDue(c, n - 1, now));
      ExpireStepWake(c, n - 1, now, k);
      hide Wakeable, ExpireDue, RequestDue;
    }
  }

  /** The request sweep: each due row once, its wake beside it, and nothing else. */
  lemma ExpireDueEvolves(c: Colony, n: nat, now: int)
    requires n <= |c.requests|
    ensures var c' := ExpireDue(c, n, now);
            && Evolves(c, c') && c' == c.(requests := c'.requests, wakes := c'.wakes)
            && (forall i :: n <= i < |c.requests| ==> c'.requests[i] == c.requests[i])
            && (forall i :: 0 <= i < n ==>
                  c'.requests[i] == if RequestDue(c.requests[i], now)
                                    then ExpiredRequest(c, i, c.requests[i], now) else c.requests[i])
            && (forall k :: k in c'.wakes <==>
                  || k in c.wakes
                  || (k.ApprovalExpiry? && k.request < n && RequestDue(c.requests[k.request], now)
                      && Wakeable(c, c.requests[k.request].cell)))
  {
    hide ExpireDue, Wakeable;
    var c' := ExpireDue(c, n, now);
    ExpireDueFrame(c, n, now);
    forall i | 0 <= i < |c.requests|
      ensures c'.requests[i]
           == if i < n && RequestDue(c.requests[i], now) then ExpiredRequest(c, i, c.requests[i], now)
              else c.requests[i]
    {
      ExpireDueRow(c, n, now, i);
    }
    forall k
      ensures k in c'.wakes <==>
                || k in c.wakes
                || (k.ApprovalExpiry? && k.request < n && RequestDue(c.requests[k.request], now)
                    && Wakeable(c, c.requests[k.request].cell))
    {
      ExpireDueWake(c, n, now, k);
    }
  }

  lemma {:induction false} ExpireGrantsDueEffect(c: Colony, n: nat, now: int)
    requires n <= |c.grants|
    ensures var c' := ExpireGrantsDue(c, n, now);
            && c' == c.(grants := c'.grants, wakes := c'.wakes)
            && (forall i :: n <= i < |c.grants| ==> c'.grants[i] == c.grants[i])
            && (forall i :: 0 <= i < n ==>
                  c'.grants[i] == if GrantDue(c.grants[i], now)
                                  then c.grants[i].(expiredAt := Some(now),
                                                    regenerated := if Regenerates(c, c.grants[i])
                                                                   then Some(GrantExpiry(i)) else None)
                                  else c.grants[i])
            && (forall k :: k in c'.wakes <==>
                  || k in c.wakes
                  || (k.GrantExpiry? && k.grant < n && GrantDue(c.grants[k.grant], now)
                      && Regenerates(c, c.grants[k.grant])))
  {
    if n == 0 {
    } else {
      ExpireGrantsDueEffect(c, n - 1, now);
      SameCellsSameWakes(c, ExpireGrantsDue(c, n - 1, now));
      hide Regenerates;
    }
  }

  predicate Spends(op: Op) {
    op.DoStart? || op.DoRunTool? || op.DoAllocate? || op.DoAct?
  }

  /** Consuming a grant and opening an experiment touch no request, wake, Cell or proposal. */
  lemma SpendingLeavesQueue(c: Colony, op: Op)
    requires Spends(op) || op.DoStartDirectly?
    ensures var c' := Next(c, op);
            c' == c.(grants := c'.grants, experiments := c'.experiments, promotions := c'.promotions,
                     calls := c'.calls, actions := c'.actions)
  {
    hide EntitledRung, RunningCount, IsRunning, LatestExpandable, Wakeable;
  }

  /** Every transaction leaves each row decided at most once; only an enqueue adds a row. */
  lemma NextEvolves(c: Colony, op: Op)
    ensures Evolves(c, Next(c, op))
    ensures !op.DoEnqueue? ==> SameLength(c, Next(c, op))
  {
    if Spends(op) || op.DoStartDirectly? {
      SpendingLeavesQueue(c, op);
      hide Next;
    } else {
      hide FactsOf, AssessedTier, Signals, NewRequest, Wakeable;
    }
  }

  /** A request leaves PENDING once: whatever follows, a decided row never changes again. */
  lemma {:induction false} DecisionIsFinal(c: Colony, ops: seq<Op>, i: nat)
    requires i < |c.requests|
    ensures var c' := Run(c, ops);
            && i < |c'.requests| && Decided(c.requests[i], c'.requests[i])
            && (c.requests[i].status != Pending ==> c'.requests[i] == c.requests[i])
    decreases |ops|
  {
    if ops == [] {
    } else {
      NextEvolves(c, ops[0]);
      DecisionIsFinal(Next(c, ops[0]), ops[1..], i);
    }
  }

  // ---- exposure: rows only ever stop counting ------------------------------------------

  lemma {:induction false} DecidedCountLess(rs: seq<Request>, rs': seq<Request>, key: AggregationKey, since: int,
                                            founder: nat)
    requires |rs| == |rs'| && forall i :: 0 <= i < |rs| ==> Decided(rs[i], rs'[i])
    ensures LiveExposure(rs', key, since) <= LiveExposure(rs, key, since)
    ensures PendingFrom(rs', founder, since) <= PendingFrom(rs, founder, since)
    decreases |rs|
  {
    if rs == [] {
    } else {
      var n := |rs| - 1;
      assert Decided(rs[n], rs'[n]);
      DecidedCountLess(rs[..n], rs'[..n], key, since, founder);
    }
  }

  /** The exposure a request was assessed on still covers every row, itself included, that
      was in its window and could yet become real. */
  ghost predicate Covered(rs: seq<Request>, i: nat)
    requires i < |rs|
  {
    LiveExposure(rs[..i + 1], rs[i].key, rs[i].createdAt - EXPOSURE_WINDOW_SECONDS) <= rs[i].exposure
  }

  /** A request without a flooding signal had fewer than the limit pending beside it. */
  ghost predicate Unflooded(rs: seq<Request>, i: nat)
    requires i < |rs|
  {
    QueueFlooding !in rs[i].signals ==>
      PendingFrom(rs[..i], rs[i].founder, rs[i].createdAt - EXPOSURE_WINDOW_SECONDS) < QUEUE_FLOOD_PENDING_LIMIT
  }

  /** Assessed below a tier only while the exposure was below that tier's threshold, for an
      alarm that has never been above `maxAlarm`. */
  ghost predicate Assessed(r: Request, maxAlarm: nat) {
    forall t: Tier {:trigger HalfAlarms(t)} ::
      t != Low && !AtLeast(r.assessed, t) ==> 2 * r.exposure < HalfAlarms(t) * maxAlarm
  }

  ghost predicate ExposureOk(c: Colony, maxAlarm: nat) {
    && c.operator.alarm <= maxAlarm
    && forall i: nat :: i < |c.requests| ==>
         Covered(c.requests, i) && Unflooded(c.requests, i) && Assessed(c.requests[i], maxAlarm)
  }

  lemma EvolvedRowsStayCovered(c: Colony, c': Colony, maxAlarm: nat, i: nat)
    requires ExposureOk(c, maxAlarm) && Evolves(c, c') && i < |c.requests|
    ensures Covered(c'.requests, i) && Unflooded(c'.requests, i) && Assessed(c'.requests[i], maxAlarm)
  {
    var r := c.requests[i];
    assert Decided(r, c'.requests[i]) && Covered(c.requests, i) && Unflooded(c.requests, i);
    var since := r.createdAt - EXPOSURE_WINDOW_SECONDS;
    hide LiveExposure, PendingFrom, AtLeast, HalfAlarms;
    DecidedCountLess(c.requests[..i + 1], c'.requests[..i + 1], r.key, since, r.founder);
    DecidedCountLess(c.requests[..i], c'.requests[..i], r.key, since, r.founder);
  }

  lemma RowOfFacts(c: Colony, pid: nat, p: Proposal, cell: Cell, overdue: nat, now: int)
    ensures var f, r := FactsOf(c, p, cell, overdue, now), NewRequest(c, pid, p, cell, overdue, now);
            r.assessed == AssessedTier(f, p.claimed) && r.exposure == f.exposure && f.alarm == c.operator.alarm
  {}

  lemma NewRowIsAssessed(c: Colony, pid: nat, p: Proposal, cell: Cell, overdue: nat, now: int, maxAlarm: nat)
    requires c.operator.alarm <= maxAlarm
    ensures Assessed(NewRequest(c, pid, p, cell, overdue, now), maxAlarm)
  {
    var f := FactsOf(c, p, cell, overdue, now);
    var r := NewRequest(c, pid, p, cell, overdue, now);
    hide FactsOf, AssessedTier, Signals, NewRequest;
    RowOfFacts(c, pid, p, cell, overdue, now);
    forall t: Tier | t != Low && !AtLeast(r.assessed, t)
      ensures 2 * r.exposure < HalfAlarms(t) * maxAlarm
    {
      BelowThreshold(f, p.claimed, t);
      assert HalfAlarms(t) * c.operator.alarm <= HalfAlarms(t) * maxAlarm;
    }
  }

  lemma NewRowIsCovered(c: Colony, pid: nat, overdue: nat, now: int, maxAlarm: nat)
    requires c.operator.alarm <= maxAlarm
    requires pid in c.proposals && c.proposals[pid].cell in c.cells
    ensures var p := c.proposals[pid];
            var rs := c.requests + [NewRequest(c, pid, p, c.cells[p.cell], overdue, now)];
            var n := |c.requests|;
            Covered(rs, n) && Unflooded(rs, n) && Assessed(rs[n], maxAlarm)
  {
    var p := c.proposals[pid];
    var cell := c.cells[p.cell];
    var rs := c.requests + [NewRequest(c, pid, p, cell, overdue, now)];
    assert rs[..|c.requests| + 1] == rs && rs[..|c.requests|] == c.requests;
    NewRowIsAssessed(c, pid, p, cell, overdue, now, maxAlarm);
    hide Assessed, AssessedTier;
  }

  /** The operator may move the alarm, but not above the bound. */
  ghost predicate AlarmAtMost(op: Op, maxAlarm: nat) {
    op.SetOperator? ==> op.operator.alarm <= maxAlarm
  }

  lemma NextKeepsExposure(c: Colony, op: Op, maxAlarm: nat)
    requires ExposureOk(c, maxAlarm) && AlarmAtMost(op, maxAlarm)
    ensures ExposureOk(Next(c, op), maxAlarm)
  {
    var c' := Next(c, op);
    NextEvolves(c, op);
    OperatorOnlySetByOp(c, op);
    forall i: nat | i < |c'.requests|
      ensures Covered(c'.requests, i) && Unflooded(c'.requests, i) && Assessed(c'.requests[i], maxAlarm)
    {
      if i < |c.requests| {
        EvolvedRowsStayCovered(c, c', maxAlarm, i);
      } else {
        NewRowIsCovered(c, op.pid, op.overdue, op.now, maxAlarm);
      }
    }
  }

  lemma OperatorOnlySetByOp(c: Colony, op: Op)
    ensures Next(c, op).operator == if op.SetOperator? then op.operator else c.operator
  {
    if Spends(op) || op.DoStartDirectly? {
      SpendingLeavesQueue(c, op);
      hide Next;
    } else {
      hide NewRequest, Wakeable;
    }
  }

  lemma {:induction false} RunKeepsExposure(c: Colony, ops: seq<Op>, maxAlarm: nat)
    requires ExposureOk(c, maxAlarm) && forall i :: 0 <= i < |ops| ==> AlarmAtMost(ops[i], maxAlarm)
    ensures ExposureOk(Run(c, ops), maxAlarm)
    decreases |ops|
  {
    if ops == [] {
    } else {
      NextKeepsExposure(c, ops[0], maxAlarm);
      RunKeepsExposure(Next(c, ops[0]), ops[1..], maxAlarm);
    }
  }

  // ---- anti-splitting -----------------------------------------------------------------

  /** Approved on this key, assessed below `t`, created in the window that starts at `from`. */
  predicate Below(r: Request, key: AggregationKey, t: Tier, from: int) {
    && r.status == Approved && r.key == key && !AtLeast(r.assessed, t)
    && from <= r.createdAt <= from + EXPOSURE_WINDOW_SECONDS
  }

  function ApprovedBelow(rs: seq<Request>, key: AggregationKey, t: Tier, from: int): nat {
    if rs == [] then 0
    else
      ApprovedBelow(rs[..|rs| - 1], key, t, from)
      + if Below(rs[|rs| - 1], key, t, from) then rs[|rs| - 1].estimated else 0
  }

  lemma {:induction false} ApprovedWithinLive(rs: seq<Request>, key: AggregationKey, t: Tier, from: int, since: int)
    requires since <= from
    ensures ApprovedBelow(rs, key, t, from) <= LiveExposure(rs, key, since)
    decreases |rs|
  {
    if rs == [] {
    } else {
      ApprovedWithinLive(rs[..|rs| - 1], key, t, from, since);
    }
  }

  /** A row that counts below a tier was assessed on an exposure that already contained the
      rows before it. */
  lemma LastRowBounds(rs: seq<Request>, i: nat, key: AggregationKey, t: Tier, from: int, maxAlarm: nat)
    requires i < |rs| && t != Low && Covered(rs, i) && Assessed(rs[i], maxAlarm) && Below(rs[i], key, t, from)
    ensures 2 * ApprovedBelow(rs[..i + 1], key, t, from) < HalfAlarms(t) * maxAlarm
  {
    ApprovedWithinLive(rs[..i + 1], key, t, from, rs[i].createdAt - EXPOSURE_WINDOW_SECONDS);
    hide ApprovedBelow, LiveExposure, AtLeast;
  }

  lemma {:induction false} SplitBound(rs: seq<Request>, n: nat, key: AggregationKey, t: Tier, from: int, maxAlarm: nat)
    requires n <= |rs| && t != Low
    requires forall i: nat :: i < |rs| ==> Covered(rs, i) && Assessed(rs[i], maxAlarm)
    ensures ApprovedBelow(rs[..n], key, t, from) == 0
            || 2 * ApprovedBelow(rs[..n], key, t, from) < HalfAlarms(t) * maxAlarm
    decreases n
  {
    hide Covered, Assessed, Below, HalfAlarms;
    if n == 0 {
    } else {
      assert rs[..n][..n - 1] == rs[..n - 1];
      if Below(rs[n - 1], key, t, from) {
        LastRowBounds(rs, n - 1, key, t, from, maxAlarm);
      } else {
        SplitBound(rs, n - 1, key, t, from, maxAlarm);
      }
    }
  }

  /** In every run, what is approved on one key below tier `t`, of the requests created in any
      one exposure window, stays below the threshold of `t`. */
  lemma KeysAreBounded(ops: seq<Op>, o: Operator, maxAlarm: nat, key: AggregationKey, t: Tier, from: int)
    requires t != Low && o.alarm <= maxAlarm
    requires forall i :: 0 <= i < |ops| ==> AlarmAtMost(ops[i], maxAlarm)
    ensures var total := ApprovedBelow(Run(Empty(o), ops).requests, key, t, from);
            total == 0 || 2 * total < HalfAlarms(t) * maxAlarm
  {
    RunKeepsExposure(Empty(o), ops, maxAlarm);
    var rs := Run(Empty(o), ops).requests;
    assert rs[..|rs|] == rs;
    SplitBound(rs, |rs|, key, t, from, maxAlarm);
  }

  /** A batch only ever approves LOW requests. */
  ghost predicate BatchedLow(c: Colony) {
    forall i: nat :: i < |c.requests| && c.requests[i].batch.Some? ==>
      c.requests[i].status == Approved && Batchable(c.requests[i])
  }

  lemma NextBatchedLow(c: Colony, op: Op)
    requires BatchedLow(c)
    ensures BatchedLow(Next(c, op))
  {
    if Spends(op) || op.DoStartDirectly? {
      SpendingLeavesQueue(c, op);
      hide Next;
    } else {
      hide FactsOf, AssessedTier, Signals, Wakeable;
    }
  }

  lemma {:induction false} RunBatchedLow(c: Colony, ops: seq<Op>)
    requires BatchedLow(c)
    ensures BatchedLow(Run(c, ops))
    decreases |ops|
  {
    if ops == [] {
    } else {
      hide Next, BatchedLow;
      NextBatchedLow(c, ops[0]);
      RunBatchedLow(Next(c, ops[0]), ops[1..]);
    }
  }

  // ---- flooding -------------------------------------------------------------------------

  predicate QuietPending(r: Request, founder: nat, from: int) {
    && r.founder == founder && r.status == Pending && r.signals == {}
    && from <= r.createdAt <= from + EXPOSURE_WINDOW_SECONDS
  }

  function QuietCount(rs: seq<Request>, founder: nat, from: int): nat {
    if rs == [] then 0
    else
      QuietCount(rs[..|rs| - 1], founder, from)
      + if QuietPending(rs[|rs| - 1], founder, from) then 1 else 0
  }

  lemma {:induction false} QuietWithinPending(rs: seq<Request>, founder: nat, from: int, since: int)
    requires since <= from
    ensures QuietCount(rs, founder, from) <= PendingFrom(rs, founder, since)
    decreases |rs|
  {
    if rs == [] {
    } else {
      QuietWithinPending(rs[..|rs| - 1], founder, from, since);
    }
  }

  lemma {:induction false} FloodBound(rs: seq<Request>, n: nat, founder: nat, from: int)
    requires n <= |rs| && forall i: nat :: i < |rs| ==> Unflooded(rs, i)
    ensures QuietCount(rs[..n], founder, from) <= QUEUE_FLOOD_PENDING_LIMIT
    decreases n
  {
    if n == 0 {
    } else {
      var last := rs[n - 1];
      assert rs[..n][..n - 1] == rs[..n - 1];
      if QuietPending(last, founder, from) {
        assert Unflooded(rs, n - 1);
        QuietWithinPending(rs[..n - 1], founder, from, last.createdAt - EXPOSURE_WINDOW_SECONDS);
      } else {
        FloodBound(rs, n - 1, founder, from);
      }
    }
  }

  function HighestAlarm(first: nat, ops: seq<Op>): nat {
    if ops == [] then first
    else
      var rest := HighestAlarm(first, ops[1..]);
      if ops[0].SetOperator? && ops[0].operator.alarm > rest then ops[0].operator.alarm else rest
  }

  lemma {:induction false} AlarmsAreBounded(first: nat, ops: seq<Op>)
    ensures first <= HighestAlarm(first, ops)
    ensures forall i :: 0 <= i < |ops| ==> AlarmAtMost(ops[i], HighestAlarm(first, ops))
    decreases |ops|
  {
    if ops == [] {
    } else {
      AlarmsAreBounded(first, ops[1..]);
      forall i | 0 <= i < |ops| ensures AlarmAtMost(ops[i], HighestAlarm(first, ops)) {
        if i > 0 { assert AlarmAtMost(ops[1..][i - 1], HighestAlarm(first, ops[1..])); }
      }
    }
  }

  /** In every run, at every moment, one lineage has at most the limit of signal-free pending
      requests created in any one window. */
  lemma QuietRequestsAreFew(ops: seq<Op>, o: Operator, founder: nat, from: int)
    ensures QuietCount(Run(Empty(o), ops).requests, founder, from) <= QUEUE_FLOOD_PENDING_LIMIT
  {
    AlarmsAreBounded(o.alarm, ops);
    RunKeepsExposure(Empty(o), ops, HighestAlarm(o.alarm, ops));
    var rs := Run(Empty(o), ops).requests;
    assert rs[..|rs|] == rs;
    FloodBound(rs, |rs|, founder, from);
  }
}
