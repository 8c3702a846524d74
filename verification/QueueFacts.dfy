/**
 The approval queue against the colony's own tables: every row says what its proposal and its
 Cell say, so the bounds on what can be approved hold of founders, kinds and channels, and not
 only of the columns of the queue.
 */
module QueueFacts {
  import opened Basics
  import opened RiskTiers
  import opened ReviewQueue
  import opened QueueRuns
  import G = GrantRuns

  // ---- what a proposal is counted against ------------------------------------------------

  /** What requests are added up on: one lineage's proposals of one kind, or one channel, whoever
      it is that uses it. */
  datatype Purse = OneLineage(founder: nat, kind: Kind) | OneChannel(channel: string)

  /** An external action that names a channel draws on the channel; anything else draws on its
      founder's purse for its kind. */
  predicate Draws(c: Colony, pid: nat, purse: Purse) {
    && pid in c.proposals && c.proposals[pid].cell in c.cells
    && var p := c.proposals[pid];
       match purse
       case OneLineage(founder, kind) =>
         c.cells[p.cell].founder == founder && p.kind == kind && (kind != ExternalAction || p.channel == "")
       case OneChannel(channel) => p.kind == ExternalAction && p.channel == channel && channel != ""
  }

  predicate OfLineage(c: Colony, pid: nat, founder: nat) {
    && pid in c.proposals && c.proposals[pid].cell in c.cells
    && c.cells[c.proposals[pid].cell].founder == founder
  }

  function Purses(c: Colony, pid: nat): (purse: Purse)
    requires pid in c.proposals && c.proposals[pid].cell in c.cells
    ensures Draws(c, pid, purse)
    ensures forall other :: Draws(c, pid, other) ==> other == purse
  {
    var p := c.proposals[pid];
    if p.kind == ExternalAction && p.channel != "" then OneChannel(p.channel)
    else OneLineage(c.cells[p.cell].founder, p.kind)
  }

  /** The column a purse is kept under. */
  function Column(purse: Purse): AggregationKey {
    match purse
    case OneLineage(founder, kind) => ByLineage(founder, kind)
    case OneChannel(channel) => ByChannel(channel)
  }

  // ---- every row is true to the tables ------------------------------------------------------

  ghost predicate TrueRow(c: Colony, r: Request) {
    && r.proposal in c.proposals && c.proposals[r.proposal].cell in c.cells
    && var p := c.proposals[r.proposal]; var cell := c.cells[p.cell];
       && p.kind != Abstain && r.cell == p.cell && r.founder == cell.founder
       && r.claimed == p.claimed && r.estimated == p.estimated && r.summary == p.summary
       && (r.reversible <==> p.kind != ExternalAction && (p.kind != SpendRequest || cell.book != UsdReal))
       && r.expiresAt - r.createdAt == 4 * (r.slaDue - r.createdAt) && r.createdAt <= r.slaDue
       && (forall purse :: Draws(c, r.proposal, purse) <==> r.key == Column(purse))
  }

  ghost predicate TrueRows(c: Colony) {
    forall i :: 0 <= i < |c.requests| ==> TrueRow(c, c.requests[i])
  }

  ghost predicate OneRowEach(c: Colony) {
    forall i, j :: 0 <= i < j < |c.requests| ==> c.requests[i].proposal != c.requests[j].proposal
  }

  /** Proposals are never rewritten, and of a Cell's row only its status ever changes. */
  ghost predicate TablesKept(c: Colony, c': Colony) {
    && (forall pid :: pid in c.proposals ==> pid in c'.proposals && c'.proposals[pid] == c.proposals[pid])
    && (forall cell :: cell in c.cells ==>
          cell in c'.cells && c'.cells[cell] == c.cells[cell].(status := c'.cells[cell].status))
  }

  lemma NextKeepsTables(c: Colony, op: Op)
    ensures TablesKept(c, Next(c, op))
  {
    if Spends(op) || op.DoStartDirectly? {
      SpendingLeavesQueue(c, op);
      hide Next;
    } else {
      hide NewRequest, NewGrant, ExpiredRequest, Wakeable, Regenerates, Actionable;
    }
  }

  lemma {:induction false} RunKeepsTables(c: Colony, ops: seq<Op>)
    ensures TablesKept(c, Run(c, ops))
    decreases |ops|
  {
    if ops == [] {
    } else {
      hide Next;
      NextKeepsTables(c, ops[0]);
      RunKeepsTables(Next(c, ops[0]), ops[1..]);
    }
  }

  lemma RowStaysTrue(c: Colony, c': Colony, r: Request, r': Request)
    requires TrueRow(c, r) && TablesKept(c, c') && Decided(r, r')
    ensures TrueRow(c', r')
  {
    forall purse ensures Draws(c', r'.proposal, purse) <==> r'.key == Column(purse) {
      assert Draws(c', r'.proposal, purse) <==> Draws(c, r.proposal, purse);
    }
  }

  /** The three fates of an ask, by its proposal: refused, ignored, or a row of its own. */
  predicate Asks(c: Colony, pid: nat) {
    && pid in c.proposals && c.proposals[pid].kind != Abstain && c.proposals[pid].cell in c.cells
    && forall i :: 0 <= i < |c.requests| ==> c.requests[i].proposal != pid
  }

  lemma AskedRow(c: Colony, pid: nat, overdue: nat, now: int)
    ensures var c' := Next(c, DoEnqueue(pid, overdue, now));
            if Asks(c, pid) then
              var p := c.proposals[pid];
              c' == c.(requests := c.requests + [NewRequest(c, pid, p, c.cells[p.cell], overdue, now)])
            else c' == c
  {
    hide NewRequest;
  }

  lemma NewRowIsTrue(c: Colony, pid: nat, overdue: nat, now: int)
    requires Asks(c, pid)
    ensures var p := c.proposals[pid];
            var r := NewRequest(c, pid, p, c.cells[p.cell], overdue, now);
            TrueRow(c, r) && r.proposal == pid
  {
    hide FactsOf, Signals, AssessedTier;
    var p := c.proposals[pid];
    var r := NewRequest(c, pid, p, c.cells[p.cell], overdue, now);
    forall purse ensures Draws(c, pid, purse) <==> r.key == Column(purse) {
      assert r.key == Column(Purses(c, pid));
    }
  }

  lemma NextKeepsTrue(c: Colony, op: Op)
    requires TrueRows(c) && OneRowEach(c)
    ensures TrueRows(Next(c, op)) && OneRowEach(Next(c, op))
  {
    var c' := Next(c, op);
    NextKeepsTables(c, op);
    NextEvolves(c, op);
    if op.DoEnqueue? {
      AskedRow(c, op.pid, op.overdue, op.now);
      if Asks(c, op.pid) { NewRowIsTrue(c, op.pid, op.overdue, op.now); }
    }
    hide Next, NewRequest, TrueRow, TablesKept;
    forall i | 0 <= i < |c'.requests| ensures TrueRow(c', c'.requests[i]) {
      if i < |c.requests| {
        RowStaysTrue(c, c', c.requests[i], c'.requests[i]);
      } else {
        assert Decided(c'.requests[i], c'.requests[i]);
        RowStaysTrue(c, c', c'.requests[i], c'.requests[i]);
      }
    }
    assert forall i :: 0 <= i < |c.requests| ==> c'.requests[i].proposal == c.requests[i].proposal;
  }

  lemma {:induction false} RunKeepsTrue(c: Colony, ops: seq<Op>)
    requires TrueRows(c) && OneRowEach(c)
    ensures TrueRows(Run(c, ops)) && OneRowEach(Run(c, ops))
    decreases |ops|
  {
    if ops == [] {
    } else {
      hide Next, TrueRows, OneRowEach;
      NextKeepsTrue(c, ops[0]);
      RunKeepsTrue(Next(c, ops[0]), ops[1..]);
    }
  }

  /** In every run each row is its proposal's only one and says what the proposal and its Cell
      say; and two rows are added up together exactly when they draw on the same purse. */
  lemma RowsAreTrue(o: Operator, ops: seq<Op>, i: nat, j: nat)
    requires i < |Run(Empty(o), ops).requests| && j < |Run(Empty(o), ops).requests|
    ensures var c := Run(Empty(o), ops);
            && TrueRow(c, c.requests[i])
            && (i != j ==> c.requests[i].proposal != c.requests[j].proposal)
            && (c.requests[i].key == c.requests[j].key <==>
                exists purse :: Draws(c, c.requests[i].proposal, purse) && Draws(c, c.requests[j].proposal, purse))
  {
    RunKeepsTrue(Empty(o), ops);
    var c := Run(Empty(o), ops);
    hide Run;
    assert TrueRow(c, c.requests[i]) && TrueRow(c, c.requests[j]);
    var purse := Purses(c, c.requests[i].proposal);
    assert Draws(c, c.requests[i].proposal, purse);
  }

  // ---- what stands against a purse ------------------------------------------------------------

  /** Still to be decided or approved, and created in the day that ends at `now`. */
  predicate StandsSince(r: Request, now: int) {
    (r.status == Pending || r.status == Approved) && r.createdAt >= now - 86_400
  }

  predicate StandsAgainst(c: Colony, r: Request, purse: Purse, now: int) {
    StandsSince(r, now) && Draws(c, r.proposal, purse)
  }

  function EstimateOf(c: Colony, pid: nat): nat {
    if pid in c.proposals then c.proposals[pid].estimated else 0
  }

  /** What the proposals behind these rows ask for, of those that stand against the purse. */
  function Standing(c: Colony, rows: seq<Request>, purse: Purse, now: int): nat {
    if rows == [] then 0
    else
      var last := rows[|rows| - 1];
      Standing(c, rows[..|rows| - 1], purse, now)
      + if StandsAgainst(c, last, purse, now) then EstimateOf(c, last.proposal) else 0
  }

  function StandingRows(c: Colony, rows: seq<Request>, purse: Purse, now: int): set<nat> {
    set i: nat | i < |rows| && StandsAgainst(c, rows[i], purse, now)
  }

  predicate Waits(c: Colony, r: Request, founder: nat, now: int) {
    r.status == Pending && r.createdAt >= now - 86_400 && OfLineage(c, r.proposal, founder)
  }

  function WaitingRows(c: Colony, rows: seq<Request>, founder: nat, now: int): set<nat> {
    set i: nat | i < |rows| && Waits(c, rows[i], founder, now)
  }

  lemma StandingOfOneMore(c: Colony, rows: seq<Request>, purse: Purse, now: int)
    requires rows != []
    ensures StandingRows(c, rows, purse, now)
         == StandingRows(c, rows[..|rows| - 1], purse, now)
            + if StandsAgainst(c, rows[|rows| - 1], purse, now) then {|rows| - 1} else {}
    ensures |rows| - 1 !in StandingRows(c, rows[..|rows| - 1], purse, now)
  {
    hide StandsAgainst;
  }

  lemma WaitingOfOneMore(c: Colony, rows: seq<Request>, founder: nat, now: int)
    requires rows != []
    ensures WaitingRows(c, rows, founder, now)
         == WaitingRows(c, rows[..|rows| - 1], founder, now)
            + if Waits(c, rows[|rows| - 1], founder, now) then {|rows| - 1} else {}
    ensures |rows| - 1 !in WaitingRows(c, rows[..|rows| - 1], founder, now)
  {
    hide Waits;
  }

  lemma TrueRowCounts(c: Colony, r: Request, purse: Purse, founder: nat, now: int)
    requires TrueRow(c, r)
    ensures Counts(r, Column(purse), now - EXPOSURE_WINDOW_SECONDS) <==> StandsAgainst(c, r, purse, now)
    ensures Floods(r, founder, now - EXPOSURE_WINDOW_SECONDS) <==> Waits(c, r, founder, now)
    ensures EstimateOf(c, r.proposal) == r.estimated
  {}

  lemma {:induction false} SumsAgree(c: Colony, rows: seq<Request>, purse: Purse, now: int)
    requires forall i :: 0 <= i < |rows| ==> TrueRow(c, rows[i])
    ensures LiveExposure(rows, Column(purse), now - EXPOSURE_WINDOW_SECONDS) == Standing(c, rows, purse, now)
    decreases |rows|
  {
    if rows == [] {
    } else {
      assert TrueRow(c, rows[|rows| - 1]);
      TrueRowCounts(c, rows[|rows| - 1], purse, 0, now);
      hide TrueRow, StandsAgainst, Counts, EstimateOf;
      SumsAgree(c, rows[..|rows| - 1], purse, now);
    }
  }

  lemma {:induction false} CountsAgree(c: Colony, rows: seq<Request>, purse: Purse, now: int)
    requires forall i :: 0 <= i < |rows| ==> TrueRow(c, rows[i])
    ensures LiveCount(rows, Column(purse), now - EXPOSURE_WINDOW_SECONDS) == |StandingRows(c, rows, purse, now)|
    decreases |rows|
  {
    if rows == [] {
    } else {
      assert TrueRow(c, rows[|rows| - 1]);
      TrueRowCounts(c, rows[|rows| - 1], purse, 0, now);
      StandingOfOneMore(c, rows, purse, now);
      hide TrueRow, StandingRows, StandsAgainst, Counts;
      CountsAgree(c, rows[..|rows| - 1], purse, now);
    }
  }

  lemma {:induction false} WaitsAgree(c: Colony, rows: seq<Request>, founder: nat, now: int)
    requires forall i :: 0 <= i < |rows| ==> TrueRow(c, rows[i])
    ensures PendingFrom(rows, founder, now - EXPOSURE_WINDOW_SECONDS) == |WaitingRows(c, rows, founder, now)|
    decreases |rows|
  {
    if rows == [] {
    } else {
      assert TrueRow(c, rows[|rows| - 1]);
      TrueRowCounts(c, rows[|rows| - 1], OneChannel(""), founder, now);
      WaitingOfOneMore(c, rows, founder, now);
      hide TrueRow, WaitingRows, Waits, Floods;
      WaitsAgree(c, rows[..|rows| - 1], founder, now);
    }
  }

  // ---- what an ask is assessed on --------------------------------------------------------------

  predicate WasRejected(c: Colony, founder: nat, summary: string) {
    && summary != ""
    && exists i :: 0 <= i < |c.requests| && c.requests[i].status == Rejected
                   && OfLineage(c, c.requests[i].proposal, founder)
                   && c.proposals[c.requests[i].proposal].summary == summary
  }

  lemma RejectionsAreExact(c: Colony, founder: nat, summary: string)
    requires TrueRows(c)
    ensures RepeatsRejected(c.requests, founder, summary) <==> WasRejected(c, founder, summary)
  {
    hide Draws;
    forall i | 0 <= i < |c.requests|
      ensures IsTwin(c.requests[i], founder, summary) <==>
                c.requests[i].status == Rejected && OfLineage(c, c.requests[i].proposal, founder)
                && c.proposals[c.requests[i].proposal].summary == summary
    {
      assert TrueRow(c, c.requests[i]);
    }
  }

  /** Everything the kernel looks at, read off the colony's tables. */
  function FactsAsked(c: Colony, pid: nat, purse: Purse, overdue: nat, now: int): Facts
    requires pid in c.proposals && c.proposals[pid].cell in c.cells
  {
    var p := c.proposals[pid];
    var cell := c.cells[p.cell];
    Facts(p.kind, cell.book, cell.status, p.estimated,
          p.estimated + Standing(c, c.requests, purse, now),
          c.operator.alarm, p.tool == "http_get",
          p.channel == "email" || p.channel == "marketplace_listing" || p.channel == "web_publish",
          |StandingRows(c, c.requests, purse, now)|,
          |WaitingRows(c, c.requests, cell.founder, now)|,
          overdue,
          WasRejected(c, cell.founder, p.summary),
          cell.genomeClaim)
  }

  lemma FactsAreRead(c: Colony, pid: nat, purse: Purse, overdue: nat, now: int)
    requires TrueRows(c) && pid in c.proposals && Draws(c, pid, purse)
    ensures var p := c.proposals[pid];
            FactsOf(c, p, c.cells[p.cell], overdue, now) == FactsAsked(c, pid, purse, overdue, now)
  {
    var p := c.proposals[pid];
    var founder := c.cells[p.cell].founder;
    SumsAgree(c, c.requests, purse, now);
    CountsAgree(c, c.requests, purse, now);
    WaitsAgree(c, c.requests, founder, now);
    RejectionsAreExact(c, founder, p.summary);
    assert KeyOf(p, founder) == Column(purse);
    hide TrueRows, Draws, KeyOf, Column, Standing, StandingRows, WaitingRows, WasRejected, LiveExposure, LiveCount,
        PendingFrom, RepeatsRejected;
  }

  /** How long the operator of the moment allows for a row of this tier. */
  function Allowed(o: Operator, assessed: Tier): nat {
    if assessed == Critical then o.slaCritical
    else if assessed == High then o.slaHigh
    else if assessed == Medium then o.slaMedium
    else o.slaLow
  }

  /** This row is what comes of asking `pid` now: assessed on these facts, pending, due after as
      long as that tier is allowed. */
  ghost predicate AnswersAsk(c: Colony, r: Request, pid: nat, f: Facts, now: int) {
    && pid in c.proposals && r.proposal == pid && r.exposure == f.exposure
    && r.signals == Signals(f, c.proposals[pid].claimed)
    && r.assessed == AssessedTier(f, c.proposals[pid].claimed)
    && r.createdAt == now && r.slaDue == now + Allowed(c.operator, r.assessed)
    && r.status == Pending && r.decidedAt == None && r.batch == None && r.regenerated == None
  }

  lemma NewRowAnswers(c: Colony, pid: nat, overdue: nat, now: int)
    requires Asks(c, pid)
    ensures var p := c.proposals[pid];
            var cell := c.cells[p.cell];
            AnswersAsk(c, NewRequest(c, pid, p, cell, overdue, now), pid, FactsOf(c, p, cell, overdue, now), now)
  {
    hide FactsOf, Signals, AssessedTier;
  }

  /** In every run, asking adds one row exactly when the proposal is none of: unknown, an
      abstention, queued before, or of an unknown Cell. The row is true to the tables, and
      assessed on what the tables say stands against its purse. */
  lemma AskIsExact(o: Operator, ops: seq<Op>, pid: nat, purse: Purse, overdue: nat, now: int)
    requires Draws(Run(Empty(o), ops), pid, purse)
    ensures var c := Run(Empty(o), ops); var c' := Next(c, DoEnqueue(pid, overdue, now));
            if !Asks(c, pid) then c' == c
            else
              && |c'.requests| == |c.requests| + 1
              && var r := c'.requests[|c.requests|];
                 && c' == c.(requests := c.requests + [r]) && TrueRow(c, r)
                 && AnswersAsk(c, r, pid, FactsAsked(c, pid, purse, overdue, now), now)
  {
    RunKeepsTrue(Empty(o), ops);
    var c := Run(Empty(o), ops);
    hide Run, Next, FactsOf, FactsAsked, TrueRow, TrueRows, Draws, AnswersAsk, NewRequest, OneRowEach;
    AskedRow(c, pid, overdue, now);
    if Asks(c, pid) {
      NewRowIsTrue(c, pid, overdue, now);
      NewRowAnswers(c, pid, overdue, now);
      FactsAreRead(c, pid, purse, overdue, now);
    }
  }

  // ---- the bounds, of founders, kinds and channels -----------------------------------------------

  lemma CoveredPurse(c: Colony, i: nat, purse: Purse)
    requires i < |c.requests| && TrueRows(c) && Covered(c.requests, i)
    requires Draws(c, c.requests[i].proposal, purse)
    ensures Standing(c, c.requests[..i + 1], purse, c.requests[i].createdAt) <= c.requests[i].exposure
  {
    assert TrueRow(c, c.requests[i]);
    SumsAgree(c, c.requests[..i + 1], purse, c.requests[i].createdAt);
    hide Draws, Column, LiveExposure, Standing;
  }

  /** Each exposure covers, at every later moment of a run, all that still stands of what was asked
      of the same purse in the day before the row, itself included. */
  lemma ExposureCoversThePurse(o: Operator, ops: seq<Op>, i: nat, purse: Purse)
    requires i < |Run(Empty(o), ops).requests|
    requires Draws(Run(Empty(o), ops), Run(Empty(o), ops).requests[i].proposal, purse)
    ensures var c := Run(Empty(o), ops);
            Standing(c, c.requests[..i + 1], purse, c.requests[i].createdAt) <= c.requests[i].exposure
  {
    AlarmsAreBounded(o.alarm, ops);
    RunKeepsExposure(Empty(o), ops, HighestAlarm(o.alarm, ops));
    RunKeepsTrue(Empty(o), ops);
    assert Covered(Run(Empty(o), ops).requests, i);
    hide *;
    CoveredPurse(Run(Empty(o), ops), i, purse);
  }

  predicate IsBelow(assessed: Tier, t: Tier) {
    match t
    case Low => false
    case Medium => assessed == Low
    case High => assessed == Low || assessed == Medium
    case Critical => assessed != Critical
  }

  predicate CreatedIn(r: Request, from: int) {
    from <= r.createdAt <= from + 86_400
  }

  predicate IsDrawnBelow(c: Colony, r: Request, purse: Purse, t: Tier, from: int) {
    r.status == Approved && IsBelow(r.assessed, t) && CreatedIn(r, from) && Draws(c, r.proposal, purse)
  }

  /** What was approved out of the purse below tier `t`, of the requests created in the day that
      starts at `from`. */
  function DrawnBelow(c: Colony, rows: seq<Request>, purse: Purse, t: Tier, from: int): nat {
    if rows == [] then 0
    else
      var last := rows[|rows| - 1];
      DrawnBelow(c, rows[..|rows| - 1], purse, t, from)
      + if IsDrawnBelow(c, last, purse, t, from) then EstimateOf(c, last.proposal) else 0
  }

  lemma DrawnIsBelow(c: Colony, r: Request, purse: Purse, t: Tier, from: int)
    requires TrueRow(c, r)
    ensures IsDrawnBelow(c, r, purse, t, from) <==> Below(r, Column(purse), t, from)
    ensures EstimateOf(c, r.proposal) == r.estimated
  {}

  lemma {:induction false} DrawnIsOnTheKey(c: Colony, rows: seq<Request>, purse: Purse, t: Tier, from: int)
    requires forall i :: 0 <= i < |rows| ==> TrueRow(c, rows[i])
    ensures DrawnBelow(c, rows, purse, t, from) == ApprovedBelow(rows, Column(purse), t, from)
    decreases |rows|
  {
    if rows == [] {
    } else {
      assert TrueRow(c, rows[|rows| - 1]);
      DrawnIsBelow(c, rows[|rows| - 1], purse, t, from);
      hide TrueRow, IsDrawnBelow, Below, EstimateOf;
      DrawnIsOnTheKey(c, rows[..|rows| - 1], purse, t, from);
    }
  }

  /** However an ask is split, over however many Cells of a lineage or lineages on a channel, and
      whatever is decided, expired or changed in between: in every run, what is approved out of one
      purse as LOW, of the requests created in any one day, is below half the alarm; as LOW or
      MEDIUM, below the alarm; and below CRITICAL, below four alarms. */
  lemma SplittingBuysNothing(o: Operator, ops: seq<Op>, maxAlarm: nat, purse: Purse, t: Tier, from: int)
    requires t != Low && o.alarm <= maxAlarm
    requires forall i :: 0 <= i < |ops| ==> AlarmAtMost(ops[i], maxAlarm)
    ensures var c := Run(Empty(o), ops); var total := DrawnBelow(c, c.requests, purse, t, from);
            || total == 0
            || (t == Medium && 2 * total < maxAlarm)
            || (t == High && total < maxAlarm)
            || (t == Critical && total < 4 * maxAlarm)
  {
    var c := Run(Empty(o), ops);
    RunKeepsTrue(Empty(o), ops);
    KeysAreBounded(ops, o, maxAlarm, Column(purse), t, from);
    hide Run, TrueRow, DrawnBelow, ApprovedBelow, AlarmAtMost;
    DrawnIsOnTheKey(c, c.requests, purse, t, from);
  }

  predicate IsBatched(c: Colony, r: Request, purse: Purse, from: int) {
    r.batch.Some? && CreatedIn(r, from) && Draws(c, r.proposal, purse)
  }

  /** What batches approved out of the purse, of the requests created in the day from `from`. */
  function Batched(c: Colony, rows: seq<Request>, purse: Purse, from: int): nat {
    if rows == [] then 0
    else
      var last := rows[|rows| - 1];
      Batched(c, rows[..|rows| - 1], purse, from)
      + if IsBatched(c, last, purse, from) then EstimateOf(c, last.proposal) else 0
  }

  lemma {:induction false} BatchedIsDrawn(c: Colony, rows: seq<Request>, purse: Purse, from: int)
    requires forall i :: 0 <= i < |rows| && rows[i].batch.Some? ==>
               rows[i].status == Approved && rows[i].assessed == Low
    ensures Batched(c, rows, purse, from) <= DrawnBelow(c, rows, purse, Medium, from)
    decreases |rows|
  {
    if rows == [] {
    } else {
      hide EstimateOf, Draws, CreatedIn;
      BatchedIsDrawn(c, rows[..|rows| - 1], purse, from);
    }
  }

  /** All that batches ever approve out of one purse, of the requests of one day, is below half
      the alarm. */
  lemma BatchesStayBelowHalfAlarm(o: Operator, ops: seq<Op>, maxAlarm: nat, purse: Purse, from: int)
    requires o.alarm <= maxAlarm && forall i :: 0 <= i < |ops| ==> AlarmAtMost(ops[i], maxAlarm)
    ensures var c := Run(Empty(o), ops); var total := Batched(c, c.requests, purse, from);
            total == 0 || 2 * total < maxAlarm
  {
    var c := Run(Empty(o), ops);
    SplittingBuysNothing(o, ops, maxAlarm, purse, Medium, from);
    RunBatchedLow(Empty(o), ops);
    hide Run, DrawnBelow, Batched;
    BatchedIsDrawn(c, c.requests, purse, from);
  }

  function QuietRows(c: Colony, founder: nat, from: int): set<nat> {
    set i: nat | i < |c.requests| && c.requests[i].status == Pending && c.requests[i].signals == {}
                 && CreatedIn(c.requests[i], from) && OfLineage(c, c.requests[i].proposal, founder)
  }

  lemma QuietRowsAreTheSet(c: Colony, founder: nat, from: int)
    requires TrueRows(c)
    ensures QuietRows(c, founder, from) == G.QuietSet(c.requests, founder, from)
  {
    forall i: nat | i < |c.requests|
      ensures OfLineage(c, c.requests[i].proposal, founder) <==> c.requests[i].founder == founder
    {
      assert TrueRow(c, c.requests[i]);
    }
    hide TrueRows, OfLineage;
  }

  /** At every moment of every run, the Cells of one lineage together have at most five pending
      requests without a signal among those created in any one day. */
  lemma QuietRequestsAreFew(o: Operator, ops: seq<Op>, founder: nat, from: int)
    ensures |QuietRows(Run(Empty(o), ops), founder, from)| <= 5
  {
    RunKeepsTrue(Empty(o), ops);
    var c := Run(Empty(o), ops);
    QuietRowsAreTheSet(c, founder, from);
    G.QuietSetSize(c.requests, founder, from);
    QueueRuns.QuietRequestsAreFew(ops, o, founder, from);
  }

  /** And of the requests of one lineage and one day no batch chosen in a run approves more than
      five, whatever commits between its approvals. */
  lemma BatchIsFew(o: Operator, ops: seq<Op>, limit: Option<int>, others: seq<seq<Op>>, batch: nat, now: int,
                   founder: nat, from: int)
    requires |others| == |Eligible(Run(Empty(o), ops), limit)|
    ensures var c := Run(Empty(o), ops);
            |set i: nat | i in G.BatchAmong(c, Eligible(c, limit), others, batch, now).approved
                          && i < |c.requests| && CreatedIn(c.requests[i], from)
                          && OfLineage(c, c.requests[i].proposal, founder)| <= 5
  {
    RunKeepsTrue(Empty(o), ops);
    var c := Run(Empty(o), ops);
    G.BatchIsFew(ops, o, limit, others, batch, now, founder, from);
    hide Run, Eligible, G.BatchAmong;
    var approved := G.BatchAmong(c, Eligible(c, limit), others, batch, now).approved;
    forall i: nat | i < |c.requests|
      ensures OfLineage(c, c.requests[i].proposal, founder) <==> c.requests[i].founder == founder
    {
      assert TrueRow(c, c.requests[i]);
    }
    hide OfLineage, TrueRows;
    assert (set i: nat | i in approved && i < |c.requests| && CreatedIn(c.requests[i], from)
                         && OfLineage(c, c.requests[i].proposal, founder))
        == set i | i in approved && i < |c.requests| && c.requests[i].founder == founder
                   && from <= c.requests[i].createdAt <= from + EXPOSURE_WINDOW_SECONDS;
  }
}
