/**
 What grants buy, over whole runs: each consumed grant bought exactly one thing of its own
 kind, and a rung is climbed by promotions only. An operator may start experiments beside
 them, at any rung of the ladder.
 */
module SpendRuns {
  import opened Basics
  import opened RiskTiers
  import opened ReviewQueue
  import opened QueueRuns
  import opened GrantRuns

  // ---- one purchase a grant ----------------------------------------------------------------

  /** Every request is for a proposal of its own. */
  ghost predicate RequestsOk(c: Colony) {
    && (forall i :: 0 <= i < |c.requests| ==> c.requests[i].proposal in c.proposals)
    && (forall i, j :: 0 <= i < j < |c.requests| ==> c.requests[i].proposal != c.requests[j].proposal)
  }

  predicate StartedBy(e: Experiment, pid: nat) {
    e.proposal == Some(pid)
  }

  /** Some row of the table that grants of this kind buy from names this grant. */
  ghost predicate HasBought(c: Colony, g: nat, kind: Kind)
    requires g < |c.grants|
  {
    match kind
    case Experiment => exists e :: 0 <= e < |c.experiments| && StartedBy(c.experiments[e], c.grants[g].proposal)
    case SpendRequest => exists p :: 0 <= p < |c.promotions| && c.promotions[p].grant == g
    case ToolRequest => g in c.calls
    case ExternalAction => g in c.actions
    case _ => false
  }

  ghost predicate IsFor(c: Colony, g: nat, kind: Kind) {
    g < |c.grants| && c.grants[g].proposal in c.proposals && c.proposals[c.grants[g].proposal].kind == kind
  }

  ghost predicate IsStartedFrom(c: Colony, e: Experiment, g: nat) {
    IsFor(c, g, Kind.Experiment) && StartedBy(e, c.grants[g].proposal) && c.grants[g].cell == e.cell
  }

  ghost predicate ExperimentRowsOk(c: Colony, es: seq<Experiment>) {
    && (forall e :: 0 <= e < |es| && es[e].proposal.Some? ==> exists g: nat :: IsStartedFrom(c, es[e], g))
    && (forall d, e :: 0 <= d < e < |es| && es[e].proposal.Some? ==> es[d].proposal != es[e].proposal)
  }

  ghost predicate PromotionRowsOk(c: Colony, ps: seq<Promotion>) {
    && (forall p :: 0 <= p < |ps| ==> IsFor(c, ps[p].grant, SpendRequest) && c.grants[ps[p].grant].cell == ps[p].cell)
    && (forall p, q :: 0 <= p < q < |ps| ==> ps[p].grant != ps[q].grant)
  }

  ghost predicate NamedRowsOk(c: Colony, ids: seq<nat>, kind: Kind) {
    && (forall i :: 0 <= i < |ids| ==> IsFor(c, ids[i], kind))
    && (forall i, j :: 0 <= i < j < |ids| ==> ids[i] != ids[j])
  }

  /** Every row that a grant pays for names a grant of the right kind, its own. */
  ghost predicate RowsOk(c: Colony) {
    && ExperimentRowsOk(c, c.experiments) && PromotionRowsOk(c, c.promotions)
    && NamedRowsOk(c, c.calls, ToolRequest) && NamedRowsOk(c, c.actions, ExternalAction)
  }

  /** A grant is consumed exactly when it bought something. */
  ghost predicate PaidOnce(c: Colony) {
    forall g: nat :: g < |c.grants| ==>
      && c.grants[g].proposal in c.proposals
      && (c.grants[g].consumedAt.Some? <==> HasBought(c, g, c.proposals[c.grants[g].proposal].kind))
  }

  ghost predicate Accounted(c: Colony) {
    Paired(c) && RequestsOk(c) && RowsOk(c) && PaidOnce(c)
  }

  lemma GrantsOfOtherProposals(c: Colony, g: nat, h: nat)
    requires Paired(c) && RequestsOk(c) && g < |c.grants| && h < |c.grants| && g != h
    ensures c.grants[g].proposal != c.grants[h].proposal
  {
    assert GrantOk(c, c.grants[g]) && GrantOk(c, c.grants[h]);
  }

  // ---- steps that buy nothing ------------------------------------------------------------------

  /** Proposals are only added to, grants keep their terms and their use, and what grants bought
      stays as it was but for experiments that conclude or that need no grant. */
  ghost predicate BuysNothing(c: Colony, c': Colony) {
    && (forall pid :: pid in c.proposals ==> pid in c'.proposals && c'.proposals[pid] == c.proposals[pid])
    && |c.grants| <= |c'.grants|
    && (forall g :: 0 <= g < |c.grants| ==>
          Follows(c.grants[g], c'.grants[g]) && c'.grants[g].consumedAt == c.grants[g].consumedAt)
    && c'.promotions == c.promotions && c'.calls == c.calls && c'.actions == c.actions
    && |c.experiments| <= |c'.experiments|
    && (forall e :: 0 <= e < |c.experiments| ==>
          c'.experiments[e] == c.experiments[e].(running := c'.experiments[e].running))
    && (forall e :: |c.experiments| <= e < |c'.experiments| ==> c'.experiments[e].proposal == None)
  }

  lemma BuyingNothingKeepsRows(c: Colony, c': Colony)
    requires RowsOk(c) && BuysNothing(c, c')
    ensures RowsOk(c')
  {
    forall e | 0 <= e < |c'.experiments| && c'.experiments[e].proposal.Some?
      ensures exists g: nat :: IsStartedFrom(c', c'.experiments[e], g)
    {
      var g: nat :| IsStartedFrom(c, c.experiments[e], g);
      assert IsStartedFrom(c', c'.experiments[e], g);
    }
    forall p | 0 <= p < |c.promotions| ensures IsFor(c', c.promotions[p].grant, SpendRequest) {
      assert IsFor(c, c.promotions[p].grant, SpendRequest);
    }
    forall i | 0 <= i < |c.calls| ensures IsFor(c', c.calls[i], ToolRequest) {
      assert IsFor(c, c.calls[i], ToolRequest);
    }
    forall i | 0 <= i < |c.actions| ensures IsFor(c', c.actions[i], ExternalAction) {
      assert IsFor(c, c.actions[i], ExternalAction);
    }
  }

  lemma BuyingNothingKeepsBought(c: Colony, c': Colony, g: nat, kind: Kind)
    requires BuysNothing(c, c') && g < |c.grants|
    ensures HasBought(c', g, kind) <==> HasBought(c, g, kind)
  {
    if kind == Kind.Experiment {
      if HasBought(c, g, kind) {
        var e :| 0 <= e < |c.experiments| && StartedBy(c.experiments[e], c.grants[g].proposal);
        assert StartedBy(c'.experiments[e], c'.grants[g].proposal);
      }
      if HasBought(c', g, kind) {
        var e :| 0 <= e < |c'.experiments| && StartedBy(c'.experiments[e], c'.grants[g].proposal);
        assert StartedBy(c.experiments[e], c.grants[g].proposal);
      }
    }
  }

  /** A grant just issued has bought nothing yet: whatever names its proposal or its place would
      have been some other grant's. */
  lemma NewGrantHasNothing(c: Colony, c': Colony, kind: Kind)
    requires Accounted(c) && Paired(c') && RequestsOk(c') && BuysNothing(c, c') && |c'.grants| == |c.grants| + 1
    ensures !HasBought(c', |c.grants|, kind)
  {
    var n := |c.grants|;
    forall e | 0 <= e < |c'.experiments| ensures !StartedBy(c'.experiments[e], c'.grants[n].proposal) {
      if e < |c.experiments| && c.experiments[e].proposal.Some? {
        var g: nat :| IsStartedFrom(c, c.experiments[e], g);
        GrantsOfOtherProposals(c', g, n);
      }
    }
  }

  lemma BuyingNothingKeepsAccount(c: Colony, c': Colony)
    requires Accounted(c) && Paired(c') && RequestsOk(c') && BuysNothing(c, c')
    requires |c'.grants| <= |c.grants| + 1
    requires |c'.grants| > |c.grants| ==> c'.grants[|c.grants|].consumedAt.None?
    ensures Accounted(c')
  {
    BuyingNothingKeepsRows(c, c');
    forall g: nat | g < |c'.grants|
      ensures c'.grants[g].proposal in c'.proposals
      ensures c'.grants[g].consumedAt.Some? <==> HasBought(c', g, c'.proposals[c'.grants[g].proposal].kind)
    {
      assert GrantOk(c', c'.grants[g]);
      var kind := c'.proposals[c'.grants[g].proposal].kind;
      if g < |c.grants| {
        BuyingNothingKeepsBought(c, c', g, kind);
      } else {
        NewGrantHasNothing(c, c', kind);
      }
    }
  }

  // ---- steps that buy ------------------------------------------------------------------------------

  function KindOf(op: Op): Kind
    requires Spends(op)
  {
    match op
    case DoStart(_, _) => Kind.Experiment
    case DoRunTool(_, _, _) => ToolRequest
    case DoAllocate(_, _, _, _) => SpendRequest
    case DoAct(_, _, _, _) => ExternalAction
  }

  /** The terms that rows are matched on. */
  ghost predicate SameTerms(c: Colony, c': Colony) {
    && c'.proposals == c.proposals && |c'.grants| == |c.grants|
    && forall g :: 0 <= g < |c.grants| ==>
         c'.grants[g].proposal == c.grants[g].proposal && c'.grants[g].cell == c.grants[g].cell
  }

  lemma ExperimentRowsGrow(c: Colony, c': Colony, e: Experiment, g: nat)
    requires SameTerms(c, c') && ExperimentRowsOk(c, c.experiments) && IsStartedFrom(c, e, g)
    requires !HasBought(c, g, Kind.Experiment)
    ensures ExperimentRowsOk(c', c.experiments) && ExperimentRowsOk(c', c.experiments + [e])
  {
    var es := c.experiments + [e];
    forall i | 0 <= i < |es| && es[i].proposal.Some? ensures exists h: nat :: IsStartedFrom(c', es[i], h) {
      if i < |c.experiments| {
        var h: nat :| IsStartedFrom(c, es[i], h);
        assert IsStartedFrom(c', es[i], h);
      } else {
        assert IsStartedFrom(c', es[i], g);
      }
    }
    forall i | 0 <= i < |c.experiments| ensures es[i].proposal != e.proposal {
      assert !StartedBy(c.experiments[i], c.grants[g].proposal);
    }
    assert forall i :: 0 <= i < |c.experiments| ==> es[i] == c.experiments[i];
  }

  lemma ExperimentRowsStay(c: Colony, c': Colony)
    requires SameTerms(c, c') && ExperimentRowsOk(c, c.experiments)
    ensures ExperimentRowsOk(c', c.experiments)
  {
    forall i | 0 <= i < |c.experiments| && c.experiments[i].proposal.Some?
      ensures exists h: nat :: IsStartedFrom(c', c.experiments[i], h)
    {
      var h: nat :| IsStartedFrom(c, c.experiments[i], h);
      assert IsStartedFrom(c', c.experiments[i], h);
    }
  }

  lemma PromotionRowsStay(c: Colony, c': Colony)
    requires SameTerms(c, c') && PromotionRowsOk(c, c.promotions)
    ensures PromotionRowsOk(c', c.promotions)
  {
    forall i | 0 <= i < |c.promotions| ensures IsFor(c', c.promotions[i].grant, SpendRequest) {
      assert IsFor(c, c.promotions[i].grant, SpendRequest);
    }
  }

  lemma PromotionRowsGrow(c: Colony, c': Colony, p: Promotion)
    requires SameTerms(c, c') && PromotionRowsOk(c, c.promotions)
    requires IsFor(c, p.grant, SpendRequest) && p.cell == c.grants[p.grant].cell && !HasBought(c, p.grant, SpendRequest)
    ensures PromotionRowsOk(c', c.promotions + [p])
  {
    PromotionRowsStay(c, c');
    assert IsFor(c', p.grant, SpendRequest);
  }

  lemma NamedRowsStay(c: Colony, c': Colony, ids: seq<nat>, kind: Kind)
    requires SameTerms(c, c') && NamedRowsOk(c, ids, kind)
    ensures NamedRowsOk(c', ids, kind)
  {
    forall i | 0 <= i < |ids| ensures IsFor(c', ids[i], kind) {
      assert IsFor(c, ids[i], kind);
    }
  }

  lemma NamedRowsGrow(c: Colony, c': Colony, ids: seq<nat>, g: nat, kind: Kind)
    requires SameTerms(c, c') && NamedRowsOk(c, ids, kind) && IsFor(c, g, kind) && g !in ids
    ensures NamedRowsOk(c', ids + [g], kind)
  {
    NamedRowsStay(c, c', ids, kind);
    assert IsFor(c', g, kind);
  }

  lemma SpendIsInForce(c: Colony, op: Op)
    requires Spends(op) && SpendsNow(c, op)
    ensures IsFor(c, op.gid, KindOf(op)) && c.grants[op.gid].consumedAt.None?
    ensures SameTerms(c, Spent(c, op)) && Spent(c, op).requests == c.requests
    ensures Spent(c, op).grants == c.grants[op.gid := c.grants[op.gid].(consumedAt := Some(op.now))]
    ensures var c', g := Spent(c, op), c.grants[op.gid];
            && (op.DoStart? ==>
                  c'.experiments == c.experiments + [Experiment.Experiment(g.cell, Some(g.proposal),
                                                                           EntitledRung(c.promotions, g.cell), true)])
            && (!op.DoStart? ==> c'.experiments == c.experiments)
            && (if op.DoAllocate? then
                  && |c'.promotions| == |c.promotions| + 1
                  && c'.promotions == c.promotions + [c'.promotions[|c.promotions|]]
                  && c'.promotions[|c.promotions|].grant == op.gid && c'.promotions[|c.promotions|].cell == g.cell
                else c'.promotions == c.promotions)
            && (c'.calls == if op.DoRunTool? then c.calls + [op.gid] else c.calls)
            && (c'.actions == if op.DoAct? then c.actions + [op.gid] else c.actions)
  {
    hide MayOpen, AnyExpandable, LatestExpandable, Wakeable, EntitledRung;
  }

  lemma SpendKeepsRows(c: Colony, op: Op)
    requires RowsOk(c) && Spends(op) && SpendsNow(c, op) && op.gid < |c.grants| && !HasBought(c, op.gid, KindOf(op))
    ensures RowsOk(Spent(c, op))
  {
    SpendIsInForce(c, op);
    hide Spent, SpendsNow, SameTerms, ExperimentRowsOk, PromotionRowsOk, NamedRowsOk, EntitledRung;
    var c' := Spent(c, op);
    var g := op.gid;
    if op.DoStart? {
      ExperimentRowsGrow(c, c', c'.experiments[|c.experiments|], g);
    } else {
      ExperimentRowsStay(c, c');
    }
    if op.DoAllocate? {
      PromotionRowsGrow(c, c', c'.promotions[|c.promotions|]);
    } else {
      PromotionRowsStay(c, c');
    }
    if op.DoRunTool? {
      NamedRowsGrow(c, c', c.calls, g, ToolRequest);
    } else {
      NamedRowsStay(c, c', c.calls, ToolRequest);
    }
    if op.DoAct? {
      NamedRowsGrow(c, c', c.actions, g, ExternalAction);
    } else {
      NamedRowsStay(c, c', c.actions, ExternalAction);
    }
  }

  lemma StartBuysItsOwn(c: Colony, c': Colony, e: Experiment, g: nat, h: nat)
    requires SameTerms(c, c') && g < |c.grants| && h < |c.grants| && c'.experiments == c.experiments + [e]
    requires StartedBy(e, c.grants[g].proposal) && (h != g ==> c.grants[h].proposal != c.grants[g].proposal)
    ensures HasBought(c', h, Kind.Experiment) <==> h == g || HasBought(c, h, Kind.Experiment)
  {
    var n := |c.experiments|;
    assert c'.experiments[n] == e && forall i :: 0 <= i < n ==> c'.experiments[i] == c.experiments[i];
    if HasBought(c', h, Kind.Experiment) {
      var i :| 0 <= i <= n && StartedBy(c'.experiments[i], c'.grants[h].proposal);
      assert i < n ==> StartedBy(c.experiments[i], c.grants[h].proposal);
    }
    if HasBought(c, h, Kind.Experiment) {
      var i :| 0 <= i < n && StartedBy(c.experiments[i], c.grants[h].proposal);
      assert StartedBy(c'.experiments[i], c'.grants[h].proposal);
    }
  }

  lemma PromotionBuysItsOwn(c: Colony, c': Colony, p: Promotion, h: nat)
    requires SameTerms(c, c') && h < |c.grants| && c'.promotions == c.promotions + [p]
    ensures HasBought(c', h, SpendRequest) <==> h == p.grant || HasBought(c, h, SpendRequest)
  {
    var n := |c.promotions|;
    assert c'.promotions[n] == p;
    if HasBought(c, h, SpendRequest) {
      var i :| 0 <= i < n && c.promotions[i].grant == h;
      assert c'.promotions[i].grant == h;
    }
  }

  lemma SameExperimentsSameBought(c: Colony, c': Colony, h: nat)
    requires SameTerms(c, c') && h < |c.grants| && c'.experiments == c.experiments
    ensures HasBought(c', h, Kind.Experiment) <==> HasBought(c, h, Kind.Experiment)
  {}

  lemma SpendBuysItsOwn(c: Colony, op: Op, h: nat)
    requires Paired(c) && RequestsOk(c) && Spends(op) && SpendsNow(c, op) && h < |c.grants|
             && c.grants[h].proposal in c.proposals
    ensures HasBought(Spent(c, op), h, c.proposals[c.grants[h].proposal].kind)
            <==> h == op.gid || HasBought(c, h, c.proposals[c.grants[h].proposal].kind)
  {
    SpendIsInForce(c, op);
    var c', g := Spent(c, op), op.gid;
    if h != g { GrantsOfOtherProposals(c, g, h); }
    hide Spent, SpendsNow, SameTerms, Paired, RequestsOk, EntitledRung;
    match c.proposals[c.grants[h].proposal].kind
    case Experiment =>
      if op.DoStart? {
        StartBuysItsOwn(c, c', c'.experiments[|c.experiments|], g, h);
      } else {
        SameExperimentsSameBought(c, c', h);
      }
    case SpendRequest =>
      if op.DoAllocate? { PromotionBuysItsOwn(c, c', c'.promotions[|c.promotions|], h); }
    case _ =>
  }

  lemma SpendKeepsPaidOnce(c: Colony, op: Op)
    requires Accounted(c) && Spends(op) && SpendsNow(c, op)
    ensures PaidOnce(Spent(c, op))
  {
    SpendIsInForce(c, op);
    var c' := Spent(c, op);
    hide Spent, SpendsNow, Paired, RowsOk, RequestsOk, HasBought, EntitledRung;
    forall h: nat | h < |c'.grants|
      ensures c'.grants[h].proposal in c'.proposals
      ensures c'.grants[h].consumedAt.Some? <==> HasBought(c', h, c'.proposals[c'.grants[h].proposal].kind)
    {
      SpendBuysItsOwn(c, op, h);
    }
  }

  lemma SpendKeepsAccount(c: Colony, op: Op)
    requires Accounted(c) && Spends(op)
    ensures Accounted(Next(c, op))
  {
    NextKeepsPaired(c, op);
    RequestsStayOk(c, op);
    SpendIsExact(c, op);
    if SpendsNow(c, op) {
      SpendIsInForce(c, op);
      SpendKeepsRows(c, op);
      SpendKeepsPaidOnce(c, op);
    }
    hide Next, SpendsNow, Spent, Paired, RowsOk, PaidOnce, RequestsOk, SameTerms, HasBought;
  }

  // ---- every step keeps the account ------------------------------------------------------------------

  lemma RequestsStayOk(c: Colony, op: Op)
    requires RequestsOk(c)
    ensures RequestsOk(Next(c, op))
  {
    NextEvolves(c, op);
    if Spends(op) || op.DoStartDirectly? {
      SpendingLeavesQueue(c, op);
      hide Next;
    } else {
      hide FactsOf, AssessedTier, Signals, Wakeable;
      var c' := Next(c, op);
      assert forall pid :: pid in c.proposals ==> pid in c'.proposals;
    }
  }

  lemma OthersBuyNothing(c: Colony, op: Op)
    requires !Spends(op)
    ensures BuysNothing(c, Next(c, op))
  {
    var c' := Next(c, op);
    forall g | 0 <= g < |c.grants|
      ensures Follows(c.grants[g], c'.grants[g]) && c'.grants[g].consumedAt == c.grants[g].consumedAt
    {
      GrantStep(c, op, g);
    }
    NewGrantStep(c, op);
    OthersLeaveTables(c, op);
    hide Next, Follows;
  }

  lemma OthersLeaveTables(c: Colony, op: Op)
    requires !Spends(op)
    ensures var c' := Next(c, op);
            && (forall pid :: pid in c.proposals ==> pid in c'.proposals && c'.proposals[pid] == c.proposals[pid])
            && c'.promotions == c.promotions && c'.calls == c.calls && c'.actions == c.actions
            && |c.experiments| <= |c'.experiments|
            && (forall e :: 0 <= e < |c.experiments| ==>
                c'.experiments[e] == c.experiments[e].(running := c'.experiments[e].running))
            && (forall e :: |c.experiments| <= e < |c'.experiments| ==> c'.experiments[e].proposal == None)
  {
    hide NewRequest, NewGrant, ExpiredRequest, Wakeable, Regenerates, RunningCount, IsRunning, Actionable;
  }

  lemma NextKeepsAccount(c: Colony, op: Op)
    requires Accounted(c)
    ensures Accounted(Next(c, op))
  {
    if Spends(op) {
      SpendKeepsAccount(c, op);
    } else {
      NextKeepsPaired(c, op);
      RequestsStayOk(c, op);
      OthersBuyNothing(c, op);
      NewGrantStep(c, op);
      BuyingNothingKeepsAccount(c, Next(c, op));
    }
  }

  lemma {:induction false} RunKeepsAccount(c: Colony, ops: seq<Op>)
    requires Accounted(c)
    ensures Accounted(Run(c, ops))
    decreases |ops|
  {
    if ops == [] {
    } else {
      hide Next, Accounted;
      NextKeepsAccount(c, ops[0]);
      RunKeepsAccount(Next(c, ops[0]), ops[1..]);
    }
  }

  lemma EmptyKeepsAccount(o: Operator)
    ensures Accounted(Empty(o))
  {}

  // ---- the main results ----------------------------------------------------------------------------

  /** In every run, each consumed grant bought exactly one thing, of its own kind, and everything
      that needs a grant was bought with one: experiments from a grant, promotions, tool calls and
      external actions correspond one to one with the consumed grants of their kind, and no grant
      for a statement is ever consumed. */
  lemma GrantsBuyExactlyOnce(o: Operator, ops: seq<Op>, g: nat)
    requires g < |Run(Empty(o), ops).grants|
    ensures var c := Run(Empty(o), ops);
            && c.grants[g].proposal in c.proposals
            && (c.grants[g].consumedAt.Some? <==> HasBought(c, g, c.proposals[c.grants[g].proposal].kind))
            && (c.grants[g].consumedAt.Some? ==> !IsStatement(c, c.grants[g].proposal))
            && RowsOk(c)
            && (forall h: nat :: h < |c.grants| && h != g ==> c.grants[h].proposal != c.grants[g].proposal)
  {
    EmptyKeepsAccount(o);
    RunKeepsAccount(Empty(o), ops);
    var c := Run(Empty(o), ops);
    forall h: nat | h < |c.grants| && h != g ensures c.grants[h].proposal != c.grants[g].proposal {
      GrantsOfOtherProposals(c, g, h);
    }
  }

  // ---- rungs ------------------------------------------------------------------------------------------

  /** `entitled_rung` is the maximum: the floor, or the highest promotion of this Cell. */
  lemma {:induction false} EntitledRungIsMax(ps: seq<Promotion>, cell: nat)
    ensures EntitledRung(ps, cell) >= 1
    ensures forall i :: 0 <= i < |ps| && ps[i].cell == cell ==> ps[i].rung <= EntitledRung(ps, cell)
    ensures EntitledRung(ps, cell) == 1
            || exists i :: 0 <= i < |ps| && ps[i].cell == cell && ps[i].rung == EntitledRung(ps, cell)
    decreases |ps|
  {
    if ps == [] {
    } else {
      EntitledRungIsMax(ps[..|ps| - 1], cell);
    }
  }

  /** Every experiment is on the ladder; one that a grant started is no higher than its Cell was
      promoted; and no Cell has two running. */
  ghost predicate ExperimentsOk(c: Colony) {
    && (forall e :: 0 <= e < |c.experiments| ==>
          && 1 <= c.experiments[e].rung <= 9
          && (c.experiments[e].proposal.Some? ==>
              c.experiments[e].rung <= EntitledRung(c.promotions, c.experiments[e].cell)))
    && (forall d, e :: 0 <= d < e < |c.experiments| && c.experiments[d].running && c.experiments[e].running ==>
          c.experiments[d].cell != c.experiments[e].cell)
  }

  lemma PromotionKeepsExperiments(c: Colony, p: Promotion)
    requires ExperimentsOk(c)
    ensures ExperimentsOk(c.(promotions := c.promotions + [p]))
  {
    var promotions := c.promotions + [p];
    assert promotions[..|promotions| - 1] == c.promotions;
    forall cell: nat ensures EntitledRung(promotions, cell) >= EntitledRung(c.promotions, cell) {}
  }

  lemma OpeningKeepsExperiments(c: Colony, cell: nat, hypothesis: string, rung: int, proposal: Option<nat>)
    requires ExperimentsOk(c) && MayOpen(c, cell, hypothesis, rung)
    requires proposal.Some? ==> rung <= EntitledRung(c.promotions, cell)
    ensures ExperimentsOk(c.(experiments := c.experiments + [Experiment.Experiment(cell, proposal, rung, true)]))
  {
    hide EntitledRung, RunningCount;
  }

  lemma SpendingKeepsExperiments(c: Colony, op: Op)
    requires ExperimentsOk(c) && Spends(op) && SpendsNow(c, op)
    ensures ExperimentsOk(Spent(c, op))
  {
    hide EntitledRung, RunningCount, MayOpen, AnyExpandable, LatestExpandable, Wakeable;
    match op
    case DoStart(gid, now) =>
      var g := c.grants[gid];
      OpeningKeepsExperiments(c, g.cell, c.proposals[g.proposal].hypothesis.value, EntitledRung(c.promotions, g.cell),
                              Some(g.proposal));
    case DoAllocate(gid, rung, funds, now) => PromotionKeepsExperiments(c, Spent(c, op).promotions[|c.promotions|]);
    case _ =>
  }

  lemma NextKeepsExperiments(c: Colony, op: Op)
    requires ExperimentsOk(c)
    ensures ExperimentsOk(Next(c, op))
  {
    hide EntitledRung, RunningCount;
    if Spends(op) {
      SpendIsExact(c, op);
      hide *;
      if SpendsNow(c, op) { SpendingKeepsExperiments(c, op); }
    } else if op.DoStartDirectly? {
      DirectStartIsExact(c, op.cell, op.hypothesis, op.typedRung);
      hide ExperimentsOk, Next, MayOpen;
      if MayOpen(c, op.cell, op.hypothesis, op.typedRung) {
        OpeningKeepsExperiments(c, op.cell, op.hypothesis, op.typedRung, None);
      }
    } else {
      hide NewRequest, Wakeable, Regenerates;
    }
  }

  lemma {:induction false} RunKeepsExperiments(c: Colony, ops: seq<Op>)
    requires ExperimentsOk(c)
    ensures ExperimentsOk(Run(c, ops))
    decreases |ops|
  {
    if ops == [] {
    } else {
      hide Next, ExperimentsOk;
      NextKeepsExperiments(c, ops[0]);
      RunKeepsExperiments(Next(c, ops[0]), ops[1..]);
    }
  }

  /** A promotion of this Cell to at least this rung, bought with a consumed grant for money that
      an approved request stands behind. */
  ghost predicate Earned(c: Colony, p: nat, cell: nat, rung: int) {
    && p < |c.promotions| && c.promotions[p].cell == cell && rung <= c.promotions[p].rung
    && IsFor(c, c.promotions[p].grant, SpendRequest)
    && c.grants[c.promotions[p].grant].consumedAt.Some?
    && c.grants[c.promotions[p].grant].request < |c.requests|
    && c.requests[c.grants[c.promotions[p].grant].request].status == Approved
  }

  /** No Cell names its own rung. In every run, an experiment that a grant started runs on the
      flight simulator, or its Cell was promoted at least that high by a grant of its own; an
      experiment typed in by an operator may stand at any rung, and lifts nobody. Whatever
      started them, no Cell has two running. */
  lemma RungsAreEarned(o: Operator, ops: seq<Op>)
    ensures var c := Run(Empty(o), ops);
            && ExperimentsOk(c)
            && forall e :: 0 <= e < |c.experiments| && c.experiments[e].proposal.Some?
                           && c.experiments[e].rung > 1 ==>
                 exists p: nat :: Earned(c, p, c.experiments[e].cell, c.experiments[e].rung)
  {
    EmptyKeepsAccount(o);
    RunKeepsAccount(Empty(o), ops);
    RunKeepsExperiments(Empty(o), ops);
    var c := Run(Empty(o), ops);
    hide Run;
    forall e | 0 <= e < |c.experiments| && c.experiments[e].proposal.Some?
        && c.experiments[e].rung > 1
      ensures exists p: nat :: Earned(c, p, c.experiments[e].cell, c.experiments[e].rung)
    {
      var cell := c.experiments[e].cell;
      EntitledRungIsMax(c.promotions, cell);
      var p :| 0 <= p < |c.promotions| && c.promotions[p].cell == cell
          && c.promotions[p].rung == EntitledRung(c.promotions, cell);
      var g := c.promotions[p].grant;
      assert IsFor(c, g, SpendRequest) && HasBought(c, g, SpendRequest) && GrantOk(c, c.grants[g]);
      assert Earned(c, p, cell, c.experiments[e].rung);
    }
  }

  // ---- pilots ---------------------------------------------------------------------------------------------

  /** A pilot expands an earlier live experiment of the same Cell, which no other pilot expands. */
  ghost predicate PilotsOk(ps: seq<Promotion>) {
    && (forall p :: 0 <= p < |ps| ==>
          match ps[p].supersedes
          case None => ps[p].rung == 7
          case Some(q) =>
            && ps[p].rung == 8 && q < p && ps[q].rung == 7
            && ps[q].cell == ps[p].cell)
    && (forall p, q :: 0 <= p < q < |ps| && ps[p].supersedes.Some? ==> ps[p].supersedes != ps[q].supersedes)
  }

  lemma NextKeepsPilots(c: Colony, op: Op)
    requires PilotsOk(c.promotions)
    ensures PilotsOk(Next(c, op).promotions)
  {
    if op.DoAllocate? {
      SpendIsExact(c, op);
      hide Next, Wakeable;
      if SpendsNow(c, op) {
        var ps := Spent(c, op).promotions;
        var before := ps[|c.promotions|].supersedes;
        if before.Some? {
          assert Expandable(c.promotions, before.value, ps[|c.promotions|].cell);
        }
      }
    } else {
      hide NewRequest, Wakeable, Regenerates, EntitledRung, RunningCount, IsRunning;
    }
  }

  lemma {:induction false} RunKeepsPilots(c: Colony, ops: seq<Op>)
    requires PilotsOk(c.promotions)
    ensures PilotsOk(Run(c, ops).promotions)
    decreases |ops|
  {
    if ops == [] {
    } else {
      hide Next, PilotsOk;
      NextKeepsPilots(c, ops[0]);
      RunKeepsPilots(Next(c, ops[0]), ops[1..]);
    }
  }

  function AtRung(ps: seq<Promotion>, cell: nat, rung: nat): set<nat> {
    set p: nat | p < |ps| && ps[p].cell == cell && ps[p].rung == rung
  }

  /** No rung is skipped and no evidence used twice: in every run a Cell has at most as many pilots
      as live experiments, each pilot standing on one of its own. */
  lemma PilotsStandOnTheirOwn(o: Operator, ops: seq<Op>, cell: nat)
    ensures var ps := Run(Empty(o), ops).promotions;
            PilotsOk(ps) && |AtRung(ps, cell, 8)| <= |AtRung(ps, cell, 7)|
  {
    RunKeepsPilots(Empty(o), ops);
    var ps := Run(Empty(o), ops).promotions;
    hide Run;
    PilotsInject(ps, cell, AtRung(ps, cell, 8), AtRung(ps, cell, 7));
  }

  lemma {:induction false} PilotsInject(ps: seq<Promotion>, cell: nat, pilots: set<nat>, live: set<nat>)
    requires PilotsOk(ps) && pilots <= AtRung(ps, cell, 8)
    requires forall p :: p in pilots ==> ps[p].supersedes.Some? && ps[p].supersedes.value in live
    ensures |pilots| <= |live|
    decreases |pilots|
  {
    if pilots == {} {
    } else {
      var p :| p in pilots;
      PilotsInject(ps, cell, pilots - {p}, live - {ps[p].supersedes.value});
    }
  }

  // ---- slots --------------------------------------------------------------------------------------------------

  /** The operator may move the cap on running experiments, but not above the bound. */
  ghost predicate SlotsAtMost(op: Op, most: nat) {
    op.SetOperator? ==> op.operator.maxParallel <= most
  }

  lemma NextKeepsSlots(c: Colony, op: Op, most: nat)
    requires |Running(c.experiments)| <= most && c.operator.maxParallel <= most && SlotsAtMost(op, most)
    ensures |Running(Next(c, op).experiments)| <= most && Next(c, op).operator.maxParallel <= most
  {
    var c' := Next(c, op);
    OperatorOnlySetByOp(c, op);
    if Spends(op) {
      SpendIsExact(c, op);
      hide Next, AnyExpandable, LatestExpandable, EntitledRung, Running;
      if |c'.experiments| > |c.experiments| { OpenedRunning(c, c'.experiments); }
    } else if op.DoStartDirectly? {
      DirectStartIsExact(c, op.cell, op.hypothesis, op.typedRung);
      hide Next, Running;
      if |c'.experiments| > |c.experiments| { OpenedRunning(c, c'.experiments); }
    } else {
      hide NewRequest, Wakeable, Regenerates;
      SubsetSize(Running(c'.experiments), Running(c.experiments));
    }
  }

  lemma OpenedRunning(c: Colony, es: seq<Experiment>)
    requires |es| == |c.experiments| + 1 && es[..|es| - 1] == c.experiments && es[|es| - 1].running
    ensures |Running(es)| == |Running(c.experiments)| + 1
  {
    RunningOfOneMore(es);
    hide Running;
  }

  /** Concluding a running experiment frees its slot and its Cell, and nothing else. */
  lemma ConcludingFrees(c: Colony, e: nat)
    requires e < |c.experiments|
    ensures var c' := Next(c, Conclude(e));
            && c' == c.(experiments := c'.experiments) && |c'.experiments| == |c.experiments|
            && Running(c'.experiments) == Running(c.experiments) - {e}
            && forall i :: 0 <= i < |c.experiments| ==>
                 c'.experiments[i] == c.experiments[i].(running := c'.experiments[i].running)
  {}

  /** In every run, typed-in starts included, no more experiments run than the cap ever allowed. */
  lemma {:induction false} SlotsHold(c: Colony, ops: seq<Op>, most: nat)
    requires |Running(c.experiments)| <= most && c.operator.maxParallel <= most
    requires forall i :: 0 <= i < |ops| ==> SlotsAtMost(ops[i], most)
    ensures |Running(Run(c, ops).experiments)| <= most
    decreases |ops|
  {
    if ops == [] {
    } else {
      hide Next, Running;
      NextKeepsSlots(c, ops[0], most);
      SlotsHold(Next(c, ops[0]), ops[1..], most);
    }
  }
}
