/**
 Batches, grants, sweeps and wakes over whole runs of the approval queue.
 */
module GrantRuns {
  import opened Basics
  import opened RiskTiers
  import opened ReviewQueue
  import opened QueueRuns

  // ---- what one batch approves -----------------------------------------------------

  ghost predicate Distinct(ids: seq<nat>) {
    forall k, l :: 0 <= k < l < |ids| ==> ids[k] != ids[l]
  }

  /** Pending, LOW, reversible and without a signal. */
  predicate Ready(c: Colony, i: nat) {
    i < |c.requests| && c.requests[i].status == Pending && Batchable(c.requests[i])
  }

  lemma {:induction false} OnlyBatchableReady(c: Colony, ids: seq<nat>)
    requires Ids(c.requests, ids) && Sorted(c.requests, ids)
    requires forall k :: 0 <= k < |ids| ==> c.requests[ids[k]].status == Pending
    ensures var r := OnlyBatchable(c.requests, ids);
            && Sorted(c.requests, r)
            && (forall x :: x in r <==> x in ids && Batchable(c.requests[x]))
    decreases |ids|
  {
    if ids == [] {
    } else {
      OnlyBatchableReady(c, ids[1..]);
      var rest := OnlyBatchable(c.requests, ids[1..]);
      assert ids == [ids[0]] + ids[1..];
      forall k | 0 <= k < |rest| ensures Before(c.requests, ids[0], rest[k]) {
        assert rest[k] in ids[1..];
      }
    }
  }

  lemma EligibleReady(c: Colony, limit: Option<int>)
    ensures var ids := Eligible(c, limit);
            && Ids(c.requests, ids) && Sorted(c.requests, ids) && Distinct(ids)
            && (forall k :: 0 <= k < |ids| ==> Ready(c, ids[k]))
            && (limit.None? ==> forall i: nat :: Ready(c, i) ==> i in ids)
  {
    var queue := QueueOf(c.requests, |c.requests|);
    forall k | 0 <= k < |queue| ensures c.requests[queue[k]].status == Pending {
      assert queue[k] in queue;
    }
    OnlyBatchableReady(c, queue);
    var all := OnlyBatchable(c.requests, queue);
    forall k | 0 <= k < |all| ensures Ready(c, all[k]) {
      assert all[k] in all;
    }
  }

  /** A limit takes the first so many of all there are, and a negative one leaves off the last. */
  lemma LimitTakesAPrefix(c: Colony, limit: int)
    ensures var all, ids := Eligible(c, None), Eligible(c, Some(limit));
            && ids <= all
            && (0 <= limit <= |all| ==> |ids| == limit)
            && (limit > |all| ==> ids == all)
            && (-|all| <= limit < 0 ==> |ids| == |all| + limit)
            && (limit < -|all| ==> ids == [])
  {
    hide OnlyBatchable, QueueOf;
  }

  /** One approval of a batch: it goes through exactly when the row has not expired. */
  lemma ReadyApproves(c: Colony, i: nat, batch: nat, now: int)
    requires Ready(c, i)
    ensures var r := DecideApprove(c, i, Some(batch), now);
            if now >= c.requests[i].expiresAt then r == Err(PastExpiry)
            else r.Ok? && r.value.grants == c.grants + [NewGrant(i, c.requests[i], now)]
                 && r.value.requests
                    == c.requests[i := c.requests[i].(status := Approved, decidedAt := Some(now), batch := Some(batch))]
  {}

  ghost predicate AllReady(c: Colony, ids: seq<nat>) {
    Distinct(ids) && forall k :: 0 <= k < |ids| ==> Ready(c, ids[k])
  }

  lemma ApprovalLeavesRestReady(c: Colony, ids: seq<nat>, batch: nat, now: int)
    requires AllReady(c, ids) && ids != [] && DecideApprove(c, ids[0], Some(batch), now).Ok?
    ensures var c' := DecideApprove(c, ids[0], Some(batch), now).value;
            && AllReady(c', ids[1..]) && |c'.requests| == |c.requests|
            && (forall i: nat :: i < |c.requests| && i != ids[0] ==> c'.requests[i] == c.requests[i])
  {
    var c' := DecideApprove(c, ids[0], Some(batch), now).value;
    forall k | 0 <= k < |ids[1..]| ensures Ready(c', ids[1..][k]) {
      assert Ready(c, ids[k + 1]) && ids[0] != ids[k + 1];
    }
  }

  /** The requests approved are a prefix of the list, and the loop stops early exactly at the
      first row past its expiry. */
  lemma {:induction false} BatchApprovesPrefix(c: Colony, ids: seq<nat>, batch: nat, now: int)
    requires AllReady(c, ids)
    ensures var r := ApproveEach(c, ids, batch, now);
            var m := |r.approved|;
            && m <= |ids| && r.approved == ids[..m]
            && (forall k :: 0 <= k < m ==> ids[k] < |c.requests| && now < c.requests[ids[k]].expiresAt)
            && (m == |ids| ==> r.stopped == None)
            && (m < |ids| ==> r.stopped == Some(PastExpiry)
                              && ids[m] < |c.requests| && now >= c.requests[ids[m]].expiresAt)
    decreases |ids|
  {
    if ids == [] {
    } else {
      assert Ready(c, ids[0]);
      ReadyApproves(c, ids[0], batch, now);
      var first := DecideApprove(c, ids[0], Some(batch), now);
      if first.Ok? {
        ApprovalLeavesRestReady(c, ids, batch, now);
        BatchApprovesPrefix(first.value, ids[1..], batch, now);
        var rest := ApproveEach(first.value, ids[1..], batch, now);
        var m := |rest.approved| + 1;
        assert [ids[0]] + rest.approved == ids[..m];
        forall k | 0 <= k < m ensures ids[k] < |c.requests| && now < c.requests[ids[k]].expiresAt {
          if k > 0 {
            assert ids[k] == ids[1..][k - 1] && ids[k] != ids[0];
          }
        }
        if m < |ids| {
          assert ids[m] == ids[1..][m - 1] && ids[m] != ids[0];
        }
      }
    }
  }

  /** What was approved before a stop stays approved; no other row is touched. */
  lemma {:induction false} BatchRows(c: Colony, ids: seq<nat>, batch: nat, now: int)
    requires AllReady(c, ids)
    ensures var r := ApproveEach(c, ids, batch, now);
            && |r.colony.requests| == |c.requests|
            && (forall i: nat :: i < |c.requests| ==>
                  r.colony.requests[i] == if i in r.approved
                                          then c.requests[i].(status := Approved, decidedAt := Some(now),
                                                              batch := Some(batch))
                                          else c.requests[i])
    decreases |ids|
  {
    if ids == [] {
    } else {
      assert Ready(c, ids[0]);
      ReadyApproves(c, ids[0], batch, now);
      var first := DecideApprove(c, ids[0], Some(batch), now);
      if first.Ok? {
        ApprovalLeavesRestReady(c, ids, batch, now);
        BatchRows(first.value, ids[1..], batch, now);
        BatchApprovesPrefix(first.value, ids[1..], batch, now);
        assert ids[0] !in ids[1..];
      }
    }
  }

  lemma {:induction false} BatchGrants(c: Colony, ids: seq<nat>, batch: nat, now: int)
    requires AllReady(c, ids)
    ensures var r := ApproveEach(c, ids, batch, now);
            && |r.colony.grants| == |c.grants| + |r.approved|
            && (forall g :: 0 <= g < |c.grants| ==> r.colony.grants[g] == c.grants[g])
            && (forall k :: 0 <= k < |r.approved| ==>
                  r.approved[k] < |c.requests|
                  && r.colony.grants[|c.grants| + k] == NewGrant(r.approved[k], c.requests[r.approved[k]], now))
    decreases |ids|
  {
    hide NewGrant, Wakeable;
    if ids == [] {
    } else {
      assert Ready(c, ids[0]);
      ReadyApproves(c, ids[0], batch, now);
      var first := DecideApprove(c, ids[0], Some(batch), now);
      if first.Ok? {
        var c' := first.value;
        ApprovalLeavesRestReady(c, ids, batch, now);
        BatchGrants(c', ids[1..], batch, now);
        BatchApprovesPrefix(c', ids[1..], batch, now);
        var r, rest := ApproveEach(c, ids, batch, now), ApproveEach(c', ids[1..], batch, now);
        forall k | 0 <= k < |r.approved|
          ensures r.approved[k] < |c.requests|
          ensures r.colony.grants[|c.grants| + k] == NewGrant(r.approved[k], c.requests[r.approved[k]], now)
        {
          if k > 0 {
            assert r.approved[k] == rest.approved[k - 1] == ids[1..][k - 1] == ids[k];
            assert r.colony.grants[|c.grants| + k] == rest.colony.grants[|c'.grants| + (k - 1)];
          } else {
            assert r.colony.grants[|c.grants|] == c'.grants[|c.grants|];
          }
        }
      }
    }
  }

  /** A batch with nothing between its approvals stops early exactly when an eligible request
      has outlived its expiry, and every grant it issues, stopped or not, is for a pending, LOW,
      reversible, signal-free request that has not expired. */
  lemma BatchAloneIsSafe(c: Colony, batch: nat, limit: Option<int>, now: int)
    ensures var ids := Eligible(c, limit);
            var r := ApproveBatch(c, batch, limit, now);
            && (r.stopped.Some? <==> exists k :: 0 <= k < |ids| && c.requests[ids[k]].expiresAt <= now)
            && |r.colony.grants| == |c.grants| + |r.approved|
            && |r.colony.requests| == |c.requests|
            && (forall k :: 0 <= k < |r.approved| ==>
                  && Ready(c, r.approved[k]) && now < c.requests[r.approved[k]].expiresAt
                  && r.colony.grants[|c.grants| + k] == NewGrant(r.approved[k], c.requests[r.approved[k]], now)
                  && r.colony.requests[r.approved[k]].status == Approved)
  {
    EligibleReady(c, limit);
    var ids := Eligible(c, limit);
    BatchApprovesPrefix(c, ids, batch, now);
    BatchRows(c, ids, batch, now);
    BatchGrants(c, ids, batch, now);
    var r := ApproveBatch(c, batch, limit, now);
    forall k | 0 <= k < |r.approved|
      ensures Ready(c, r.approved[k]) && r.colony.requests[r.approved[k]].status == Approved
    {
      assert r.approved[k] == ids[k] && r.approved[k] in r.approved;
    }
  }

  // ---- a batch among other transactions --------------------------------------------------

  /** The same loop over a selection, with whatever else commits before each approval. */
  function BatchAmong(c: Colony, ids: seq<nat>, others: seq<seq<Op>>, batch: nat, now: int): BatchResult
    requires |others| == |ids|
    decreases |ids|
  {
    if ids == [] then BatchResult(c, [], None)
    else
      var met := Run(c, others[0]);
      match DecideApprove(met, ids[0], Some(batch), now)
      case Err(e) => BatchResult(met, [], Some(e))
      case Ok(c') =>
        var rest := BatchAmong(c', ids[1..], others[1..], batch, now);
        BatchResult(rest.colony, [ids[0]] + rest.approved, rest.stopped)
  }

  /** The transactions of that loop and of the others, in the order they commit. */
  function Steps(ids: seq<nat>, others: seq<seq<Op>>, batch: nat, now: int): seq<Op>
    requires |others| == |ids|
    decreases |ids|
  {
    if ids == [] then []
    else others[0] + [DoApprove(ids[0], Some(batch), now)] + Steps(ids[1..], others[1..], batch, now)
  }

  /** The state that the `k`-th approval meets. */
  function Met(c: Colony, ids: seq<nat>, others: seq<seq<Op>>, batch: nat, now: int, k: nat): Colony
    requires |others| == |ids| && k < |ids|
    decreases k
  {
    var met := Run(c, others[0]);
    if k == 0 then met
    else Met(Next(met, DoApprove(ids[0], Some(batch), now)), ids[1..], others[1..], batch, now, k - 1)
  }

  lemma {:induction false} RunAppends(c: Colony, a: seq<Op>, b: seq<Op>)
    ensures Run(c, a + b) == Run(Run(c, a), b)
    decreases |a|
  {
    if a == [] {
      assert a + b == b;
    } else {
      assert (a + b)[1..] == a[1..] + b;
      RunAppends(Next(c, a[0]), a[1..], b);
    }
  }

  lemma OneStep(c: Colony, op: Op)
    ensures Run(c, [op]) == Next(c, op)
  {
    assert [op][1..] == [];
    assert Run(c, [op]) == Run(Next(c, op), []);
  }

  lemma MetAfter(c: Colony, ops: seq<Op>, op: Op, rest: seq<Op>)
    ensures Run(c, ops + [op] + rest) == Run(Next(Run(c, ops), op), rest)
  {
    RunAppends(c, ops + [op], rest);
    RunAppends(c, ops, [op]);
    OneStep(Run(c, ops), op);
  }

  /** So the loop is part of a run, and all that holds of every run holds of it: what it leaves is
      what the transactions up to its last approval or its refusal leave. */
  lemma {:induction false} BatchIsARun(c: Colony, ids: seq<nat>, others: seq<seq<Op>>, batch: nat, now: int)
    requires |others| == |ids|
    ensures var r := BatchAmong(c, ids, others, batch, now);
            var n := |r.approved| + if r.stopped.Some? then 1 else 0;
            n <= |ids| && r.colony == Run(c, Steps(ids[..n], others[..n], batch, now))
    decreases |ids|
  {
    hide DecideApprove;
    if ids == [] {
    } else {
      var met := Run(c, others[0]);
      var op := DoApprove(ids[0], Some(batch), now);
      var first := DecideApprove(met, ids[0], Some(batch), now);
      var r := BatchAmong(c, ids, others, batch, now);
      var n := |r.approved| + if r.stopped.Some? then 1 else 0;
      if first.Ok? {
        BatchIsARun(first.value, ids[1..], others[1..], batch, now);
      }
      assert ids[..n][1..] == ids[1..][..n - 1] && others[..n][1..] == others[1..][..n - 1];
      MetAfter(c, others[0], op, Steps(ids[1..][..n - 1], others[1..][..n - 1], batch, now));
    }
  }

  predicate StillOpen(c: Colony, rid: nat, now: int) {
    rid < |c.requests| && c.requests[rid].status == Pending && now < c.requests[rid].expiresAt
  }

  /** Chosen as batchable. Nothing that commits later changes that. */
  ghost predicate Chosen(c: Colony, ids: seq<nat>) {
    forall k :: 0 <= k < |ids| ==> ids[k] < |c.requests| && Batchable(c.requests[ids[k]])
  }

  lemma ChosenStays(c: Colony, ids: seq<nat>, ops: seq<Op>)
    requires Chosen(c, ids)
    ensures Chosen(Run(c, ops), ids)
  {
    hide Next;
    forall k | 0 <= k < |ids| ensures ids[k] < |Run(c, ops).requests| && Batchable(Run(c, ops).requests[ids[k]]) {
      DecisionIsFinal(c, ops, ids[k]);
    }
  }

  /** One approval of a chosen row, in whatever state it meets. */
  lemma ChosenApproves(c: Colony, rid: nat, batch: nat, now: int)
    requires rid < |c.requests| && Batchable(c.requests[rid])
    ensures var r := DecideApprove(c, rid, Some(batch), now);
            if StillOpen(c, rid, now) then
              && r.Ok? && r.value.grants == c.grants + [NewGrant(rid, c.requests[rid], now)]
              && r.value.requests
                 == c.requests[rid := c.requests[rid].(status := Approved, decidedAt := Some(now),
                                                       batch := Some(batch))]
            else r == Err(if c.requests[rid].status == Pending then PastExpiry else NotPending(c.requests[rid].status))
  {}

  /** The approvals are those of a prefix of the selection, each still open in the state it met;
      the loop raises at the first that was not, saying whether somebody had decided it or its
      time was up. */
  ghost predicate StopsAtFirstClosed(c: Colony, ids: seq<nat>, others: seq<seq<Op>>, batch: nat, now: int)
    requires |others| == |ids|
  {
    var r := BatchAmong(c, ids, others, batch, now);
    var m := |r.approved|;
    && m <= |ids| && r.approved == ids[..m]
    && (forall k :: 0 <= k < m ==> StillOpen(Met(c, ids, others, batch, now, k), ids[k], now))
    && (m == |ids| ==> r.stopped == None)
    && (m < |ids| ==> ClosedAt(Met(c, ids, others, batch, now, m), ids[m], now, r.stopped))
  }

  predicate ClosedAt(met: Colony, rid: nat, now: int, stopped: Option<Error>) {
    && rid < |met.requests| && !StillOpen(met, rid, now)
    && stopped == Some(if met.requests[rid].status == Pending then PastExpiry
                       else NotPending(met.requests[rid].status))
  }

  lemma {:induction false} BatchStopsAtFirstClosed(c: Colony, ids: seq<nat>, others: seq<seq<Op>>, batch: nat, now: int)
    requires |others| == |ids| && Chosen(c, ids)
    ensures StopsAtFirstClosed(c, ids, others, batch, now)
    decreases |ids|
  {
    if ids == [] {
    } else {
      var met := Run(c, others[0]);
      ChosenStays(c, ids, others[0]);
      ChosenApproves(met, ids[0], batch, now);
      var first := DecideApprove(met, ids[0], Some(batch), now);
      if first.Ok? {
        ApprovalKeepsChosen(met, ids, ids[0], batch, now);
        hide DecideApprove, StillOpen, Batchable, Run, StopsAtFirstClosed, Chosen;
        BatchStopsAtFirstClosed(first.value, ids[1..], others[1..], batch, now);
        OneMoreApproval(c, ids, others, batch, now);
      }
    }
  }

  lemma OneMoreApproval(c: Colony, ids: seq<nat>, others: seq<seq<Op>>, batch: nat, now: int)
    requires |others| == |ids| && ids != []
    requires DecideApprove(Run(c, others[0]), ids[0], Some(batch), now).Ok?
    requires StillOpen(Run(c, others[0]), ids[0], now)
    requires var c' := DecideApprove(Run(c, others[0]), ids[0], Some(batch), now).value;
             StopsAtFirstClosed(c', ids[1..], others[1..], batch, now)
    ensures StopsAtFirstClosed(c, ids, others, batch, now)
  {
    var met := Run(c, others[0]);
    var c' := DecideApprove(met, ids[0], Some(batch), now).value;
    assert Next(met, DoApprove(ids[0], Some(batch), now)) == c';
    hide DecideApprove, StillOpen, ClosedAt, Run, Next;
    var r, rest := BatchAmong(c, ids, others, batch, now), BatchAmong(c', ids[1..], others[1..], batch, now);
    assert r == BatchResult(rest.colony, [ids[0]] + rest.approved, rest.stopped);
    assert r.approved == ids[..|r.approved|];
    forall k | 0 <= k < |r.approved| ensures StillOpen(Met(c, ids, others, batch, now, k), ids[k], now) {
      if k > 0 {
        assert StillOpen(Met(c', ids[1..], others[1..], batch, now, k - 1), ids[1..][k - 1], now);
      }
    }
  }

  lemma ApprovalKeepsChosen(c: Colony, ids: seq<nat>, rid: nat, batch: nat, now: int)
    requires Chosen(c, ids) && DecideApprove(c, rid, Some(batch), now).Ok? && ids != []
    ensures Chosen(DecideApprove(c, rid, Some(batch), now).value, ids[1..])
  {
    forall k | 0 <= k < |ids| - 1
      ensures ids[1..][k] < |c.requests|
              && Batchable(DecideApprove(c, rid, Some(batch), now).value.requests[ids[1..][k]])
    {
      assert Batchable(c.requests[ids[k + 1]]);
    }
  }

  /** A batch chosen in any state, whatever commits between its approvals: it raises if and only
      if some chosen request is no longer open in the state its approval meets; and every grant
      it issues, even when it raises, is for a request that was then pending, LOW, reversible,
      signal-free and in date. */
  lemma BatchIsSafe(c: Colony, limit: Option<int>, others: seq<seq<Op>>, batch: nat, now: int)
    requires |others| == |Eligible(c, limit)|
    ensures var ids := Eligible(c, limit);
            var r := BatchAmong(c, ids, others, batch, now);
            && |r.approved| <= |ids| && r.approved == ids[..|r.approved|]
            && (r.stopped.Some? <==>
                  exists k :: 0 <= k < |ids| && !StillOpen(Met(c, ids, others, batch, now, k), ids[k], now))
            && (forall k :: 0 <= k < |r.approved| ==>
                  var met := Met(c, ids, others, batch, now, k);
                  && Ready(met, ids[k]) && now < met.requests[ids[k]].expiresAt
                  && Next(met, DoApprove(ids[k], Some(batch), now)).grants
                  == met.grants + [NewGrant(ids[k], met.requests[ids[k]], now)])
  {
    EligibleReady(c, limit);
    var ids := Eligible(c, limit);
    assert Chosen(c, ids) by {
      forall k | 0 <= k < |ids| ensures Batchable(c.requests[ids[k]]) { assert Ready(c, ids[k]); }
    }
    BatchStopsAtFirstClosed(c, ids, others, batch, now);
    var r := BatchAmong(c, ids, others, batch, now);
    hide BatchAmong;
    forall k | 0 <= k < |r.approved|
      ensures var met := Met(c, ids, others, batch, now, k);
              && Ready(met, ids[k])
              && Next(met, DoApprove(ids[k], Some(batch), now)).grants
                   == met.grants + [NewGrant(ids[k], met.requests[ids[k]], now)]
    {
      var met := Met(c, ids, others, batch, now, k);
      assert StillOpen(met, ids[k], now);
      MetKeepsChosen(c, ids, others, batch, now, k);
      ChosenApproves(met, ids[k], batch, now);
    }
  }

  lemma {:induction false} MetKeepsChosen(c: Colony, ids: seq<nat>, others: seq<seq<Op>>, batch: nat, now: int, k: nat)
    requires |others| == |ids| && k < |ids| && Chosen(c, ids)
    ensures var met := Met(c, ids, others, batch, now, k); ids[k] < |met.requests| && Batchable(met.requests[ids[k]])
    decreases k
  {
    hide Next, Batchable;
    ChosenStays(c, ids, others[0]);
    if k == 0 {
    } else {
      var met := Run(c, others[0]);
      var op := DoApprove(ids[0], Some(batch), now);
      OneStep(met, op);
      ChosenStays(met, ids, [op]);
      var met' := Next(met, op);
      forall j | 0 <= j < |ids[1..]| ensures ids[1..][j] < |met'.requests| && Batchable(met'.requests[ids[1..][j]]) {
        assert ids[j + 1] < |met'.requests| && Batchable(met'.requests[ids[j + 1]]);
      }
      MetKeepsChosen(met', ids[1..], others[1..], batch, now, k - 1);
    }
  }

  function QuietSet(rs: seq<Request>, founder: nat, from: int): set<nat> {
    set i: nat | i < |rs| && QuietPending(rs[i], founder, from)
  }

  lemma {:induction false} QuietSetSize(rs: seq<Request>, founder: nat, from: int)
    ensures |QuietSet(rs, founder, from)| == QuietCount(rs, founder, from)
    decreases |rs|
  {
    if rs == [] {
    } else {
      var n := |rs| - 1;
      QuietSetSize(rs[..n], founder, from);
      var before := QuietSet(rs[..n], founder, from);
      if QuietPending(rs[n], founder, from) {
        assert QuietSet(rs, founder, from) == before + {n};
      } else {
        assert QuietSet(rs, founder, from) == before;
      }
    }
  }

  /** From one lineage and one window, no batch chosen in any run approves more than the limit,
      whatever commits between its approvals. */
  lemma BatchIsFew(ops: seq<Op>, o: Operator, limit: Option<int>, others: seq<seq<Op>>, batch: nat, now: int,
                   founder: nat, from: int)
    requires |others| == |Eligible(Run(Empty(o), ops), limit)|
    ensures var c := Run(Empty(o), ops);
            |set i | i in BatchAmong(c, Eligible(c, limit), others, batch, now).approved && i < |c.requests|
                     && c.requests[i].founder == founder
                     && from <= c.requests[i].createdAt <= from + EXPOSURE_WINDOW_SECONDS| <= QUEUE_FLOOD_PENDING_LIMIT
  {
    hide Run, Next, Eligible, BatchAmong, Met, StillOpen;
    var c := Run(Empty(o), ops);
    var ids := Eligible(c, limit);
    EligibleReady(c, limit);
    QuietRequestsAreFew(ops, o, founder, from);
    QuietSetSize(c.requests, founder, from);
    var approved := BatchAmong(c, ids, others, batch, now).approved;
    assert |approved| <= |ids| && approved == ids[..|approved|] by {
      BatchIsSafe(c, limit, others, batch, now);
    }
    var mine := set i | i in approved && i < |c.requests| && c.requests[i].founder == founder
                        && from <= c.requests[i].createdAt <= from + EXPOSURE_WINDOW_SECONDS;
    forall i | i in mine ensures i in QuietSet(c.requests, founder, from) {
      var k :| 0 <= k < |approved| && approved[k] == i;
      assert Ready(c, ids[k]);
    }
    SubsetSize(mine, QuietSet(c.requests, founder, from));
  }

  // ---- when a consumer of a grant goes through ---------------------------------------------

  /** Unused, in date, and for an approved request of the kind the consumer asks for. */
  predicate InForce(c: Colony, gid: nat, kind: Kind, now: int) {
    && gid < |c.grants| && c.grants[gid].consumedAt.None? && now < c.grants[gid].expiresAt
    && c.grants[gid].request < |c.requests| && c.requests[c.grants[gid].request].status == Approved
    && c.grants[gid].proposal in c.proposals && c.proposals[c.grants[gid].proposal].kind == kind
  }

  function Running(experiments: seq<Experiment>): set<nat> {
    set e: nat | e < |experiments| && experiments[e].running
  }

  lemma RunningOfOneMore(es: seq<Experiment>)
    requires es != []
    ensures Running(es) == Running(es[..|es| - 1]) + if es[|es| - 1].running then {|es| - 1} else {}
    ensures |es| - 1 !in Running(es[..|es| - 1])
  {}

  lemma {:induction false} RunningIsTheSet(es: seq<Experiment>)
    ensures RunningCount(es) == |Running(es)|
    decreases |es|
  {
    if es == [] {
    } else {
      RunningOfOneMore(es);
      RunningIsTheSet(es[..|es| - 1]);
      hide Running;
    }
  }

  /** A hypothesis of its own length, a rung of the ladder, a running Cell with no experiment of
      its own running, and a slot free. */
  predicate MayOpen(c: Colony, cell: nat, hypothesis: string, rung: int) {
    && 0 < |hypothesis| <= 2_000 && 1 <= rung <= 9
    && cell in c.cells && c.cells[cell].status == Alive
    && |Running(c.experiments)| < c.operator.maxParallel
    && forall e :: 0 <= e < |c.experiments| && c.experiments[e].cell == cell ==> !c.experiments[e].running
  }

  /** Running or asleep. */
  predicate MayAct(c: Colony, gid: nat)
    requires gid < |c.grants|
  {
    c.grants[gid].cell in c.cells && c.cells[c.grants[gid].cell].status in {Alive, Dormant}
  }

  /** Some live experiment of this Cell that no pilot stands on. */
  predicate AnyExpandable(promotions: seq<Promotion>, cell: nat) {
    exists p: nat :: p < |promotions| && promotions[p].cell == cell && promotions[p].rung == 7
      && forall q :: 0 <= q < |promotions| ==> promotions[q].supersedes != Some(p)
  }

  /** A consumer of a grant goes through under these conditions, said without an order. */
  predicate SpendsNow(c: Colony, op: Op)
    requires Spends(op)
  {
    match op
    case DoStart(gid, now) =>
      && InForce(c, gid, Kind.Experiment, now)
      && c.proposals[c.grants[gid].proposal].hypothesis.Some?
      && MayOpen(c, c.grants[gid].cell, c.proposals[c.grants[gid].proposal].hypothesis.value,
                 EntitledRung(c.promotions, c.grants[gid].cell))
    case DoRunTool(gid, wellFormed, now) =>
      InForce(c, gid, ToolRequest, now) && wellFormed && MayAct(c, gid)
    case DoAllocate(gid, rung, funds, now) =>
      && InForce(c, gid, SpendRequest, now) && MayAct(c, gid)
      && 0 < c.proposals[c.grants[gid].proposal].estimated <= funds.pool && funds.flagsOn
      && (rung == 7
          || (rung == 8 && funds.reader && funds.supports && AnyExpandable(c.promotions, c.grants[gid].cell)))
    case DoAct(gid, wellFormed, allowed, now) =>
      InForce(c, gid, ExternalAction, now) && wellFormed && allowed && MayAct(c, gid)
  }

  /** What was bought. */
  function Spent(c: Colony, op: Op): Colony
    requires Spends(op) && SpendsNow(c, op)
  {
    var g := c.grants[op.gid];
    var paid := c.(grants := c.grants[op.gid := g.(consumedAt := Some(op.now))]);
    match op
    case DoStart(gid, now) =>
      paid.(experiments := c.experiments
                           + [Experiment.Experiment(g.cell, Some(g.proposal),
                                                    EntitledRung(c.promotions, g.cell), true)])
    case DoRunTool(gid, _, _) => paid.(calls := c.calls + [gid])
    case DoAllocate(gid, rung, _, now) =>
      var before :=
        if rung == 8 then LatestExpandable(c.promotions, |c.promotions|, g.cell) else None;
      paid.(promotions := c.promotions + [Promotion.Promotion(gid, g.cell, rung, before, now)])
    case DoAct(gid, _, _, _) => paid.(actions := c.actions + [gid])
  }

  lemma StartIsExact(c: Colony, op: Op)
    requires op.DoStart?
    ensures Next(c, op) == if SpendsNow(c, op) then Spent(c, op) else c
  {
    RunningIsTheSet(c.experiments);
    hide EntitledRung, RunningCount, Running;
  }

  /** An operator's own start needs no grant and names any rung of the ladder. */
  lemma DirectStartIsExact(c: Colony, cell: nat, hypothesis: string, rung: int)
    ensures Next(c, DoStartDirectly(cell, hypothesis, rung))
         == if MayOpen(c, cell, hypothesis, rung) then
              c.(experiments := c.experiments + [Experiment.Experiment(cell, None, rung, true)])
            else c
  {
    RunningIsTheSet(c.experiments);
    hide RunningCount, Running;
  }

  lemma AllocationIsExact(c: Colony, op: Op)
    requires op.DoAllocate?
    ensures Next(c, op) == if SpendsNow(c, op) then Spent(c, op) else c
  {
    if op.gid < |c.grants| {
      AnyExpandableExactly(c.promotions, c.grants[op.gid].cell);
    }
    hide Expandable, AnyExpandable, LatestExpandable;
  }

  lemma AnyExpandableExactly(ps: seq<Promotion>, cell: nat)
    ensures AnyExpandable(ps, cell) <==> LatestExpandable(ps, |ps|, cell).Some?
  {
    hide LatestExpandable;
    if AnyExpandable(ps, cell) {
      var p: nat :| p < |ps| && ps[p].cell == cell && ps[p].rung == 7
        && forall q :: 0 <= q < |ps| ==> ps[q].supersedes != Some(p);
      assert Expandable(ps, p, cell);
    }
  }

  /** Each of the four goes through exactly under its conditions, and otherwise changes nothing. */
  lemma SpendIsExact(c: Colony, op: Op)
    requires Spends(op)
    ensures Next(c, op) == if SpendsNow(c, op) then Spent(c, op) else c
  {
    match op
    case DoStart(_, _) => StartIsExact(c, op);
    case DoAllocate(_, _, _, _) => AllocationIsExact(c, op);
    case _ =>
  }

  // ---- one grant per approval, one wake per decision ------------------------------------

  /** A grant is its request's: approved, and with the request's own terms. */
  ghost predicate GrantOk(c: Colony, g: Grant) {
    && g.request < |c.requests| && IsOnTerms(g, c.requests[g.request])
    && (g.consumedAt.Some? ==> g.consumedAt.value < g.expiresAt)
    && (g.expiredAt.Some? ==> g.expiresAt <= g.expiredAt.value)
  }

  predicate IsOnTerms(g: Grant, r: Request) {
    && r.status == Approved && r.decidedAt == Some(g.grantedAt) && g.expiresAt == r.expiresAt
    && g.proposal == r.proposal && g.cell == r.cell && g.tier == r.assessed && g.exposure == r.exposure
  }

  ghost predicate HasGrant(grants: seq<Grant>, r: nat) {
    exists g :: 0 <= g < |grants| && grants[g].request == r
  }

  ghost predicate WakeOk(c: Colony, k: WakeKey) {
    match k
    case HumanDecision(r) => r < |c.requests| && (c.requests[r].status == Approved || c.requests[r].status == Rejected)
    case ApprovalExpiry(r) => r < |c.requests| && c.requests[r].status == Expired
    case GrantExpiry(g) => g < |c.grants| && c.grants[g].expiredAt.Some?
  }

  ghost predicate Paired(c: Colony) {
    && (forall g :: 0 <= g < |c.grants| ==> GrantOk(c, c.grants[g]))
    && (forall g, h :: 0 <= g < h < |c.grants| ==> c.grants[g].request != c.grants[h].request)
    && (forall r: nat :: r < |c.requests| && c.requests[r].status == Approved ==> HasGrant(c.grants, r))
    && (forall k :: k in c.wakes ==> WakeOk(c, k))
  }

  lemma ApprovalHasGrants(c: Colony, rid: nat, batch: Option<nat>, now: int)
    requires Paired(c) && DecideApprove(c, rid, batch, now).Ok?
    ensures var c' := DecideApprove(c, rid, batch, now).value;
            forall r: nat :: r < |c'.requests| && c'.requests[r].status == Approved ==> HasGrant(c'.grants, r)
  {
    var c' := DecideApprove(c, rid, batch, now).value;
    var n := |c.grants|;
    assert c'.grants[n].request == rid;
    forall r: nat | r < |c'.requests| && c'.requests[r].status == Approved ensures HasGrant(c'.grants, r) {
      if r != rid {
        var g :| 0 <= g < n && c.grants[g].request == r;
        assert c'.grants[g].request == r;
      }
    }
  }

  lemma ApproveKeepsPaired(c: Colony, rid: nat, batch: Option<nat>, now: int)
    requires Paired(c) && DecideApprove(c, rid, batch, now).Ok?
    ensures Paired(DecideApprove(c, rid, batch, now).value)
  {
    ApprovalHasGrants(c, rid, batch, now);
    hide HasGrant;
    var c' := DecideApprove(c, rid, batch, now).value;
    forall g | 0 <= g < |c.grants| ensures c'.grants[g].request != rid && GrantOk(c', c'.grants[g]) {
      assert GrantOk(c, c.grants[g]);
    }
    forall k | k in c'.wakes ensures WakeOk(c', k) {
      if k in c.wakes {
        assert WakeOk(c, k);
      }
    }
  }

  /** Rows that leave PENDING for anything but APPROVED disturb no grant. */
  lemma UnapprovedKeepsPaired(c: Colony, c': Colony)
    requires Paired(c) && Evolves(c, c') && c'.grants == c.grants
    requires forall i: nat :: i < |c'.requests| && c'.requests[i].status == Approved ==>
               i < |c.requests| && c.requests[i].status == Approved
    requires forall k :: k in c'.wakes ==> k in c.wakes || WakeOk(c', k)
    ensures Paired(c')
  {
    forall g | 0 <= g < |c'.grants| ensures GrantOk(c', c'.grants[g]) {
      assert GrantOk(c, c.grants[g]);
      assert Decided(c.requests[c.grants[g].request], c'.requests[c.grants[g].request]);
    }
    forall k | k in c'.wakes ensures WakeOk(c', k) {
      if k in c.wakes {
        assert WakeOk(c, k);
        if !k.GrantExpiry? {
          assert Decided(c.requests[k.request], c'.requests[k.request]);
        }
      }
    }
  }

  /** Stamping a grant consumed or expired on the right side of its expiry is safe. */
  lemma StampedGrantsKeepPaired(c: Colony, c': Colony)
    requires Paired(c) && c'.requests == c.requests && |c'.grants| == |c.grants|
    requires forall g :: 0 <= g < |c.grants| ==>
               && GrantOk(c, c'.grants[g]) && c'.grants[g].request == c.grants[g].request
               && (c.grants[g].expiredAt.Some? ==> c'.grants[g].expiredAt.Some?)
    requires forall k :: k in c'.wakes ==> k in c.wakes || WakeOk(c', k)
    ensures Paired(c')
  {
    forall r: nat | r < |c'.requests| && c'.requests[r].status == Approved ensures HasGrant(c'.grants, r) {
      var g :| 0 <= g < |c.grants| && c.grants[g].request == r;
      assert c'.grants[g].request == r;
    }
    forall g | 0 <= g < |c'.grants| ensures GrantOk(c', c'.grants[g]) {
      assert GrantOk(c, c'.grants[g]);
    }
    forall k | k in c'.wakes ensures WakeOk(c', k) {
      if k in c.wakes {
        assert WakeOk(c, k);
      }
    }
  }

  lemma ExpiryKeepsPaired(c: Colony, rid: nat, now: int)
    requires Paired(c)
    ensures Paired(ExpireIfDue(c, rid, now))
  {
    hide Wakeable;
    UnapprovedKeepsPaired(c, ExpireIfDue(c, rid, now));
  }

  lemma GrantExpiryKeepsPaired(c: Colony, gid: nat, now: int)
    requires Paired(c)
    ensures Paired(ExpireGrantIfDue(c, gid, now))
  {
    hide Regenerates;
    StampedGrantsKeepPaired(c, ExpireGrantIfDue(c, gid, now));
  }

  lemma SpendKeepsPaired(c: Colony, op: Op)
    requires Paired(c) && Spends(op)
    ensures Paired(Next(c, op))
  {
    SpendIsExact(c, op);
    SpendingLeavesQueue(c, op);
    hide Next;
    if op.gid < |c.grants| && SpendsNow(c, op) {
      StampedGrantsKeepPaired(c, Next(c, op));
    }
  }

  lemma OthersKeepPaired(c: Colony, op: Op)
    requires Paired(c)
    requires !op.DoApprove? && !op.DoExpire? && !op.DoExpireGrant? && !Spends(op)
    ensures Paired(Next(c, op))
  {
    hide FactsOf, AssessedTier, Signals, Sla, LiveExposure, LiveCount, PendingFrom, RunningCount, IsRunning;
    NextEvolves(c, op);
    UnapprovedKeepsPaired(c, Next(c, op));
  }

  lemma NextKeepsPaired(c: Colony, op: Op)
    requires Paired(c)
    ensures Paired(Next(c, op))
  {
    hide Paired, DecideApprove, ExpireIfDue, ExpireGrantIfDue, Enqueue, Reject;
    if Spends(op) {
      SpendKeepsPaired(c, op);
    } else {
      match op
      case DoApprove(rid, batch, now) =>
        if DecideApprove(c, rid, batch, now).Ok? {
          ApproveKeepsPaired(c, rid, batch, now);
        }
      case DoExpire(rid, now) => ExpiryKeepsPaired(c, rid, now);
      case DoExpireGrant(gid, now) => GrantExpiryKeepsPaired(c, gid, now);
      case _ => OthersKeepPaired(c, op);
    }
  }

  lemma {:induction false} RunKeepsPaired(c: Colony, ops: seq<Op>)
    requires Paired(c)
    ensures Paired(Run(c, ops))
    decreases |ops|
  {
    if ops == [] {
    } else {
      NextKeepsPaired(c, ops[0]);
      RunKeepsPaired(Next(c, ops[0]), ops[1..]);
    }
  }

  /** In every run a grant exists exactly for the approved requests, one each; a request is
      woken for a decision or for an expiry and never both; and a request's grant, being the
      only one, is the only one whose expiry can wake its Cell. */
  lemma GrantsAndWakesPairOff(o: Operator, ops: seq<Op>, r: nat)
    ensures var c := Run(Empty(o), ops);
            && (r < |c.requests| ==> (c.requests[r].status == Approved <==> HasGrant(c.grants, r)))
            && (forall g, h :: 0 <= g < h < |c.grants| ==> c.grants[g].request != r || c.grants[h].request != r)
            && !(HumanDecision(r) in c.wakes && ApprovalExpiry(r) in c.wakes)
            && (ApprovalExpiry(r) in c.wakes ==> !HasGrant(c.grants, r))
  {
    RunKeepsPaired(Empty(o), ops);
    var c := Run(Empty(o), ops);
    forall g | 0 <= g < |c.grants| && c.grants[g].request == r
      ensures r < |c.requests| && c.requests[r].status == Approved
    {
      assert GrantOk(c, c.grants[g]);
    }
    assert HumanDecision(r) in c.wakes ==> WakeOk(c, HumanDecision(r));
    assert ApprovalExpiry(r) in c.wakes ==> WakeOk(c, ApprovalExpiry(r));
  }

  // ---- the sweeps --------------------------------------------------------------------------

  lemma {:induction false} NothingDue(c: Colony, n: nat, now: int)
    requires n <= |c.requests| && forall i :: 0 <= i < n ==> !RequestDue(c.requests[i], now)
    ensures ExpireDue(c, n, now) == c
  {
    if n == 0 {
    } else {
      NothingDue(c, n - 1, now);
    }
  }

  lemma {:induction false} NoGrantDue(c: Colony, n: nat, now: int)
    requires n <= |c.grants| && forall i :: 0 <= i < n ==> !GrantDue(c.grants[i], now)
    ensures ExpireGrantsDue(c, n, now) == c
  {
    if n == 0 {
    } else {
      NoGrantDue(c, n - 1, now);
    }
  }

  /** A sweep on its own issues no grant, and the same sweep again changes nothing. */
  lemma SweepsRegenerateOnly(c: Colony, now: int)
    ensures var swept := ExpireDue(c, |c.requests|, now);
            swept.grants == c.grants && ExpireDue(swept, |c.requests|, now) == swept
    ensures var swept := ExpireGrantsDue(c, |c.grants|, now);
            && |swept.grants| == |c.grants| && swept.requests == c.requests
            && ExpireGrantsDue(swept, |c.grants|, now) == swept
  {
    ExpireDueEvolves(c, |c.requests|, now);
    var a := ExpireDue(c, |c.requests|, now);
    NothingDue(a, |a.requests|, now);
    ExpireGrantsDueEffect(c, |c.grants|, now);
    var b := ExpireGrantsDue(c, |c.grants|, now);
    NoGrantDue(b, |b.grants|, now);
  }

  function RequestSweep(n: nat, now: int): seq<Op> {
    seq(n, i requires 0 <= i < n => DoExpire(i, now))
  }

  function GrantSweep(n: nat, now: int): seq<Op> {
    seq(n, i requires 0 <= i < n => DoExpireGrant(i, now))
  }

  /** Each sweep is a run of one-row transactions. */
  lemma {:induction false} SweepIsItsSteps(c: Colony, n: nat, now: int)
    requires n <= |c.requests|
    ensures ExpireDue(c, n, now) == Run(c, RequestSweep(n, now))
  {
    if n == 0 {
    } else {
      hide ExpireOne, RequestDue;
      SweepIsItsSteps(c, n - 1, now);
      assert RequestSweep(n, now) == RequestSweep(n - 1, now) + [DoExpire(n - 1, now)];
      RunAppends(c, RequestSweep(n - 1, now), [DoExpire(n - 1, now)]);
      OneStep(Run(c, RequestSweep(n - 1, now)), DoExpire(n - 1, now));
    }
  }

  lemma {:induction false} GrantSweepIsItsSteps(c: Colony, n: nat, now: int)
    requires n <= |c.grants|
    ensures ExpireGrantsDue(c, n, now) == Run(c, GrantSweep(n, now))
  {
    if n == 0 {
    } else {
      hide ExpireOneGrant, GrantDue;
      GrantSweepIsItsSteps(c, n - 1, now);
      assert GrantSweep(n, now) == GrantSweep(n - 1, now) + [DoExpireGrant(n - 1, now)];
      RunAppends(c, GrantSweep(n - 1, now), [DoExpireGrant(n - 1, now)]);
      OneStep(Run(c, GrantSweep(n - 1, now)), DoExpireGrant(n - 1, now));
    }
  }

  // ---- what may happen to a grant ------------------------------------------------------------

  /** Terms never change, and neither mark is ever taken back or moved. */
  ghost predicate Follows(g: Grant, g': Grant) {
    && g' == g.(consumedAt := g'.consumedAt, expiredAt := g'.expiredAt, regenerated := g'.regenerated)
    && (g.consumedAt.Some? ==> g'.consumedAt == g.consumedAt)
    && (g.expiredAt.Some? ==> g'.expiredAt == g.expiredAt)
  }

  /** One step from one grant's side: who may mark it, and with what. */
  lemma GrantStep(c: Colony, op: Op, g: nat)
    requires g < |c.grants|
    ensures var c' := Next(c, op);
            && g < |c'.grants| && Follows(c.grants[g], c'.grants[g])
            && (c'.grants[g].consumedAt != c.grants[g].consumedAt <==> Spends(op) && op.gid == g && SpendsNow(c, op))
            && (c'.grants[g].expiredAt != c.grants[g].expiredAt
                <==> op.DoExpireGrant? && op.gid == g && GrantDue(c.grants[g], op.now))
            && (c'.grants[g].expiredAt != c.grants[g].expiredAt ==> c'.grants[g].expiredAt == Some(op.now))
  {
    if Spends(op) {
      SpendIsExact(c, op);
      hide Next, EntitledRung, RunningCount, IsRunning, AnyExpandable, LatestExpandable, Wakeable;
    } else {
      hide NewRequest, Wakeable, RunningCount, IsRunning;
    }
  }

  /** A grant that was not there before is one approval's, and carries no mark. */
  lemma NewGrantStep(c: Colony, op: Op)
    ensures var c' := Next(c, op);
            && |c.grants| <= |c'.grants| <= |c.grants| + 1
            && (|c'.grants| > |c.grants| ==>
                  op.DoApprove? && c'.grants[|c.grants|].consumedAt.None? && c'.grants[|c.grants|].expiredAt.None?)
  {
    if Spends(op) {
      SpendIsExact(c, op);
      hide Next, EntitledRung, RunningCount, IsRunning, AnyExpandable, LatestExpandable, Wakeable;
    } else {
      hide NewRequest, Wakeable, RunningCount, IsRunning;
    }
  }

  lemma {:induction false} GrantMarksStay(c: Colony, ops: seq<Op>, g: nat)
    requires g < |c.grants|
    ensures g < |Run(c, ops).grants| && Follows(c.grants[g], Run(c, ops).grants[g])
    decreases |ops|
  {
    if ops == [] {
    } else {
      GrantStep(c, ops[0], g);
      hide Next;
      GrantMarksStay(Next(c, ops[0]), ops[1..], g);
    }
  }

  /** A row that a sweep has passed over is never swept again, by this sweep or any other, whatever
      commits in between. */
  lemma SweptOnce(c: Colony, i: nat, now: int, ops: seq<Op>, later: int)
    ensures i < |c.requests| && RequestDue(c.requests[i], now) ==>
              var c' := Run(Next(c, DoExpire(i, now)), ops); Next(c', DoExpire(i, later)) == c'
    ensures i < |c.grants| && GrantDue(c.grants[i], now) ==>
              var c' := Run(Next(c, DoExpireGrant(i, now)), ops); Next(c', DoExpireGrant(i, later)) == c'
  {
    hide Wakeable, Regenerates;
    if i < |c.requests| && RequestDue(c.requests[i], now) {
      DecisionIsFinal(Next(c, DoExpire(i, now)), ops, i);
    }
    if i < |c.grants| && GrantDue(c.grants[i], now) {
      GrantMarksStay(Next(c, DoExpireGrant(i, now)), ops, i);
    }
  }

  // ---- consumed and expired ---------------------------------------------------------------

  predicate Both(g: Grant) {
    g.consumedAt.Some? && g.expiredAt.Some?
  }

  /** A consumer meets its conditions on a grant that a sweep has already expired. */
  predicate UsesSwept(c: Colony, op: Op, g: nat) {
    && Spends(op) && op.gid == g && g < |c.grants|
    && c.grants[g].expiredAt.Some? && SpendsNow(c, op)
  }

  /** No step but one makes a grant both consumed and expired: a use of a grant already swept. Its
      clock then stands before the sweep's. */
  lemma BecomesBothExactly(c: Colony, op: Op, g: nat)
    requires Paired(c) && (g < |c.grants| ==> !Both(c.grants[g]))
    ensures g < |Next(c, op).grants| && Both(Next(c, op).grants[g]) <==> UsesSwept(c, op, g)
    ensures UsesSwept(c, op, g) ==> op.now < c.grants[g].expiredAt.value
  {
    hide Next, MayOpen, AnyExpandable, Wakeable, HasGrant, WakeOk;
    NewGrantStep(c, op);
    if g < |c.grants| {
      GrantStep(c, op, g);
      assert GrantOk(c, c.grants[g]);
    }
  }

  lemma {:induction false} RunEndsWith(c: Colony, ops: seq<Op>)
    requires ops != []
    ensures Run(c, ops) == Next(Run(c, ops[..|ops| - 1]), ops[|ops| - 1])
    decreases |ops|
  {
    hide Next;
    var n := |ops| - 1;
    assert ops == ops[..n] + [ops[n]];
    RunAppends(c, ops[..n], [ops[n]]);
    OneStep(Run(c, ops[..n]), ops[n]);
  }

  /** Some operation of the run is a use of a grant already swept. */
  ghost predicate SweptWasUsed(c: Colony, ops: seq<Op>, g: nat) {
    exists k :: 0 <= k < |ops| && UsesSwept(Run(c, ops[..k]), ops[k], g)
  }

  lemma SweptWasUsedLast(c: Colony, ops: seq<Op>, g: nat)
    requires ops != []
    ensures var n := |ops| - 1;
            SweptWasUsed(c, ops, g) <==> SweptWasUsed(c, ops[..n], g) || UsesSwept(Run(c, ops[..n]), ops[n], g)
  {
    hide UsesSwept, Run;
    var n := |ops| - 1;
    if SweptWasUsed(c, ops, g) {
      var k :| 0 <= k < |ops| && UsesSwept(Run(c, ops[..k]), ops[k], g);
      if k < n { assert ops[..n][..k] == ops[..k] && ops[..n][k] == ops[k]; }
    }
    if SweptWasUsed(c, ops[..n], g) {
      var k :| 0 <= k < n && UsesSwept(Run(c, ops[..n][..k]), ops[..n][k], g);
      assert ops[..n][..k] == ops[..k] && ops[..n][k] == ops[k];
    }
  }

  /** In every run, whatever its clock does, a grant ends both consumed and expired exactly when
      a consumer met its conditions on it after a sweep had expired it. */
  lemma {:induction false} BothExactlyWhenSweptWasUsed(o: Operator, ops: seq<Op>, g: nat)
    ensures var c := Run(Empty(o), ops);
            g < |c.grants| && Both(c.grants[g]) <==> SweptWasUsed(Empty(o), ops, g)
    decreases |ops|
  {
    if ops == [] {
    } else {
      hide Next, UsesSwept, SweptWasUsed, Paired, Run;
      var n := |ops| - 1;
      var before := Run(Empty(o), ops[..n]);
      BothExactlyWhenSweptWasUsed(o, ops[..n], g);
      RunEndsWith(Empty(o), ops);
      SweptWasUsedLast(Empty(o), ops, g);
      EmptyIsPaired(o);
      RunKeepsPaired(Empty(o), ops[..n]);
      if g < |before.grants| && Both(before.grants[g]) {
        GrantStep(before, ops[n], g);
      } else {
        BecomesBothExactly(before, ops[n], g);
      }
    }
  }

  lemma EmptyIsPaired(o: Operator)
    ensures Paired(Empty(o))
  {}

  /** Each such use reads a clock that stands before the sweep's. */
  lemma SweptUseIsBackwards(o: Operator, ops: seq<Op>, g: nat, k: nat)
    requires k < |ops| && UsesSwept(Run(Empty(o), ops[..k]), ops[k], g)
    ensures ops[k].now < Run(Empty(o), ops[..k]).grants[g].expiredAt.value
  {
    RunKeepsPaired(Empty(o), ops[..k]);
    assert GrantOk(Run(Empty(o), ops[..k]), Run(Empty(o), ops[..k]).grants[g]);
  }

  /** A grant that stands expired was expired by a sweep of this run, at the time it carries. */
  lemma {:induction false} ExpiredBySweep(o: Operator, ops: seq<Op>, g: nat)
    requires g < |Run(Empty(o), ops).grants| && Run(Empty(o), ops).grants[g].expiredAt.Some?
    ensures exists i :: 0 <= i < |ops| && ops[i] == DoExpireGrant(g, Run(Empty(o), ops).grants[g].expiredAt.value)
    decreases |ops|
  {
    if ops == [] {
    } else {
      hide Next, Run, GrantDue;
      var n := |ops| - 1;
      var before := Run(Empty(o), ops[..n]);
      RunEndsWith(Empty(o), ops);
      NewGrantStep(before, ops[n]);
      GrantStep(before, ops[n], g);
      if before.grants[g].expiredAt.Some? {
        ExpiredBySweep(o, ops[..n], g);
        var i :| 0 <= i < n && ops[..n][i] == DoExpireGrant(g, before.grants[g].expiredAt.value);
        assert ops[i] == DoExpireGrant(g, Run(Empty(o), ops).grants[g].expiredAt.value);
      } else {
        assert ops[n] == DoExpireGrant(g, Run(Empty(o), ops).grants[g].expiredAt.value);
      }
    }
  }

  /** No consumer of this grant reads an earlier clock than a sweep of it that ran before. */
  ghost predicate UsesFollowSweeps(ops: seq<Op>, g: nat) {
    forall i, j :: 0 <= i < j < |ops| && ops[i].DoExpireGrant? && ops[i].gid == g && Spends(ops[j])
                    && ops[j].gid == g ==>
      ops[i].now <= ops[j].now
  }

  /** And then, whatever the rest of the clock does, the grant is never both consumed and expired. */
  lemma ConsumedOrExpired(o: Operator, ops: seq<Op>, g: nat)
    requires UsesFollowSweeps(ops, g) && g < |Run(Empty(o), ops).grants|
    ensures !Both(Run(Empty(o), ops).grants[g])
  {
    BothExactlyWhenSweptWasUsed(o, ops, g);
    hide Run, SpendsNow;
    if SweptWasUsed(Empty(o), ops, g) {
      var k :| 0 <= k < |ops| && UsesSwept(Run(Empty(o), ops[..k]), ops[k], g);
      SweptUseIsBackwards(o, ops, g, k);
      ExpiredBySweep(o, ops[..k], g);
    }
  }

  // ---- a clock that goes back -----------------------------------------------------------------

  /** One grant that a sweep at `late` would expire and that could be consumed at time zero. */
  ghost predicate DueLateUsableNow(c: Colony, late: int) {
    |c.grants| == 1 && GrantDue(c.grants[0], late) && StartFromGrant(c, 0, 0).Ok?
  }

  /** A grant past its expiry, swept, then offered to the consumer by a clock that went back. */
  lemma SweptThenConsumed(c: Colony, late: int)
    requires DueLateUsableNow(c, late)
    ensures var c' := Next(Next(c, DoExpireGrant(0, late)), DoStart(0, 0));
            |c'.grants| == 1 && c'.grants[0].consumedAt.Some? && c'.grants[0].expiredAt.Some?
  {}

  /** The clock is load-bearing: the consumer never asks whether a sweep expired the grant, so
      one step back across the expiry consumes it after all. */
  lemma BackwardsClockConsumesExpired(o: Operator)
    requires o.slaLow > 0 && o.maxParallel > 0 && o.alarm > 0
    ensures exists ops ::
              var c := Run(Empty(o), ops);
              |c.grants| == 1 && c.grants[0].consumedAt.Some? && c.grants[0].expiredAt.Some?
  {
    var cell := Cell(0, UsdSim, Alive, None);
    var p := Proposal(0, Kind.Experiment, Some(Low), 0, "s", "", "", Some("h"), None);
    var late := 4 * o.slaLow;
    var c4 := OneApproval(o, cell, p);
    hide Next, Run, Empty;
    var ops := [NewCell(0, cell), NewProposal(0, p), DoEnqueue(0, 0, 0), DoApprove(0, None, 0),
                DoExpireGrant(0, late), DoStart(0, 0)];
    SixSteps(Empty(o), ops);
    SweptThenConsumed(c4, late);
  }

  /** One experiment proposed by one living Cell. */
  function Proposed(o: Operator, cell: Cell, p: Proposal): Colony {
    Empty(o).(cells := map[0 := cell], proposals := map[0 := p])
  }

  lemma OneRequest(o: Operator, cell: Cell, p: Proposal) returns (r: Request)
    requires o.slaLow > 0 && o.maxParallel > 0 && o.alarm > 0
    requires cell == Cell(0, UsdSim, Alive, None)
             && p == Proposal(0, Kind.Experiment, Some(Low), 0, "s", "", "", Some("h"), None)
    ensures Next(Proposed(o, cell, p), DoEnqueue(0, 0, 0)) == Proposed(o, cell, p).(requests := [r])
    ensures r.status == Pending && r.batch == None && r.expiresAt == 4 * o.slaLow && r.proposal == 0 && r.cell == 0
  {
    var c := Proposed(o, cell, p);
    r := NewRequest(c, 0, p, cell, 0, 0);
    assert Signals(FactsOf(c, p, cell, 0, 0), Some(Low)) == {};
    assert r.assessed == Low;
    hide NewRequest, FactsOf, Signals, AssessedTier;
  }

  /** And granted at time zero. */
  function Granted(o: Operator, cell: Cell, p: Proposal, r: Request): Colony {
    Proposed(o, cell, p).(requests := [r.(status := Approved, decidedAt := Some(0))],
                          grants := [NewGrant(0, r, 0)], wakes := {HumanDecision(0)})
  }

  lemma OneGrant(o: Operator, cell: Cell, p: Proposal, r: Request)
    requires cell.status == Alive && r.cell == 0 && r.status == Pending && r.batch == None && r.expiresAt > 0
    ensures Next(Proposed(o, cell, p).(requests := [r]), DoApprove(0, None, 0)) == Granted(o, cell, p, r)
  {}

  lemma GrantIsUsable(o: Operator, cell: Cell, p: Proposal, r: Request)
    requires o.slaLow > 0 && o.maxParallel > 0
    requires cell == Cell(0, UsdSim, Alive, None)
             && p == Proposal(0, Kind.Experiment, Some(Low), 0, "s", "", "", Some("h"), None)
    requires r.expiresAt == 4 * o.slaLow && r.proposal == 0 && r.cell == 0
    ensures DueLateUsableNow(Granted(o, cell, p, r), 4 * o.slaLow)
  {}

  /** The state after one experiment was proposed, queued and approved at time zero. */
  lemma OneApproval(o: Operator, cell: Cell, p: Proposal) returns (c4: Colony)
    requires o.slaLow > 0 && o.maxParallel > 0 && o.alarm > 0
    requires cell == Cell(0, UsdSim, Alive, None)
             && p == Proposal(0, Kind.Experiment, Some(Low), 0, "s", "", "", Some("h"), None)
    ensures c4 == Next(Next(Next(Next(Empty(o), NewCell(0, cell)), NewProposal(0, p)), DoEnqueue(0, 0, 0)),
                       DoApprove(0, None, 0))
    ensures DueLateUsableNow(c4, 4 * o.slaLow)
  {
    assert Next(Next(Empty(o), NewCell(0, cell)), NewProposal(0, p)) == Proposed(o, cell, p);
    hide Next, Proposed, Granted, DueLateUsableNow;
    var r := OneRequest(o, cell, p);
    OneGrant(o, cell, p, r);
    c4 := Granted(o, cell, p, r);
    GrantIsUsable(o, cell, p, r);
  }

  lemma SixSteps(c: Colony, ops: seq<Op>)
    requires |ops| == 6
    ensures Run(c, ops) == Next(Next(Next(Next(Next(Next(c, ops[0]), ops[1]), ops[2]), ops[3]), ops[4]), ops[5])
  {
    hide Next;
    var c1 := Next(c, ops[0]);
    var c2 := Next(c1, ops[1]);
    var c3 := Next(c2, ops[2]);
    var c4 := Next(c3, ops[3]);
    var c5 := Next(c4, ops[4]);
    RunSplits(c, ops);
    RunSplits(c1, ops[1..]);
    RunSplits(c2, ops[2..]);
    RunSplits(c3, ops[3..]);
    RunSplits(c4, ops[4..]);
    RunSplits(c5, ops[5..]);
  }

  lemma RunSplits(c: Colony, ops: seq<Op>)
    requires ops != []
    ensures Run(c, ops) == Run(Next(c, ops[0]), ops[1..])
  {}
}
