/**
 One external action from approval to delivery (src/mitosis/external_actions.py, `claim`): the
 transaction reads the approval queue, the channel registry, the resource book and the artifact
 store, and writes to three of them at once. Here their runs are put together, and what a claim
 takes as given in each of them is read from the others.
 */
module Outreach {
  import opened Basics
  import T = RiskTiers
  import Q = ReviewQueue
  import QR = QueueRuns
  import G = GrantRuns
  import F = QueueFacts
  import S = SpendRuns
  import C = Channels
  import L = Labour
  import A = Artifacts
  import AR = ArtifactRuns
  import D = ReviewDesk
  import V = Archive

  datatype System = System(queue: Q.Colony, books: L.Books, store: A.Store)

  /** Whom an operator names at claim time; a Cell never names a person. */
  datatype Target = Target(counterparty: C.Given, domain: C.Given, account: C.Given)

  datatype Trouble = InQueue(queueError: Q.Error) | InBooks(problem: L.Problem)

  function ChannelNamed(name: string): C.Channel {
    if name == "email" then C.Email
    else if name == "marketplace_listing" then C.MarketplaceListing
    else if name == "web_publish" then C.WebPublish
    else C.Unregistered
  }

  function AskOf(p: Q.Proposal, t: Target): C.Ask {
    C.Ask(ChannelNamed(p.channel), t.counterparty, t.domain, t.account, p.artifact)
  }

  /** The Cell's own work, and let out of the colony by the export gate. */
  predicate Deliverable(s: A.Store, artifact: Option<nat>, cell: nat) {
    artifact.Some? ==>
      && artifact.value < |s.artifacts| && s.artifacts[artifact.value].cell == cell
      && s.artifacts[artifact.value].exported.Some?
  }

  function FounderOf(c: Q.Colony, cell: nat): nat {
    if cell in c.cells then c.cells[cell].founder else 0
  }

  function HolderOf(s: System, gid: nat): C.Holder
    requires gid < |s.queue.grants| && s.queue.grants[gid].proposal in s.queue.proposals
  {
    var g := s.queue.grants[gid];
    C.Holder(FounderOf(s.queue, g.cell), gid, true, Q.Wakeable(s.queue, g.cell),
             Deliverable(s.store, s.queue.proposals[g.proposal].artifact, g.cell), true)
  }

  /** `_claim_locked`: grant, registry, budget and delivery in one transaction. */
  function Claim(s: System, gid: nat, t: Target, now: int): Result<System, Trouble> {
    var failed := Q.Usable(s.queue, gid, T.ExternalAction, now);
    if failed.Some? then Err(InQueue(failed.value))
    else
      var g := s.queue.grants[gid];
      match L.ClaimHeld(s.books, AskOf(s.queue.proposals[g.proposal], t), HolderOf(s, gid), g.cell, now)
      case Err(e) => Err(InBooks(e))
      case Ok(books) =>
        Ok(s.(queue := Q.Consume(s.queue, gid, now).(actions := s.queue.actions + [gid]), books := books))
  }

  /** Every other transaction of the four tables, one at a time. */
  datatype Op =
    | OnQueue(queueOp: Q.Op)
    | OnBooks(deed: L.Deed)
    | OnStore(storeOp: A.Op)
    | DoClaim(gid: nat, target: Target, now: int)

  function Next(s: System, op: Op): System {
    match op
    case OnQueue(o) => if o.DoAct? then s else s.(queue := Q.Next(s.queue, o))
    case OnBooks(d) => if d.DeedClaim? then s else s.(books := L.After(s.books, d))
    case OnStore(o) => s.(store := A.Next(s.store, o))
    case DoClaim(gid, t, now) => var r := Claim(s, gid, t, now); if r.Ok? then r.value else s
  }

  function Run(s: System, ops: seq<Op>): System
    decreases |ops|
  {
    if ops == [] then s else Run(Next(s, ops[0]), ops[1..])
  }

  function Start(o: Q.Operator): System {
    System(Q.Empty(o), L.NO_BOOKS, A.EMPTY)
  }

  // ---- the claim as the program runs it ----------------------------------------------------------

  class ClaimDesk {
    const review: D.Desk
    const labour: L.LabourDesk
    const archive: V.ArtifactTable

    constructor (review: D.Desk, labour: L.LabourDesk, archive: V.ArtifactTable)
      ensures this.review == review && this.labour == labour && this.archive == archive
    {
      this.review, this.labour, this.archive := review, labour, archive;
    }

    function State(): System
      reads review, labour, labour.desk, archive
    {
      System(review.State(), labour.State(), archive.State())
    }

    method ClaimAction(gid: nat, t: Target, now: int) returns (trouble: Option<Trouble>)
      modifies review, labour, labour.desk
      ensures match Claim(old(State()), gid, t, now)
              case Ok(s) => State() == s && trouble == None
              case Err(e) => State() == old(State()) && trouble == Some(e)
    {
      hide L.ClaimHeld;
      var failed := review.CheckGrant(gid, T.ExternalAction, now);
      if failed.Some? {
        return Some(InQueue(failed.value));
      }
      var g := review.grants[gid];
      var problem := labour.ClaimAction(AskOf(review.proposals[g.proposal], t), HolderOf(State(), gid), g.cell, now);
      if problem.Some? {
        return Some(InBooks(problem.value));
      }
      review.grants := review.grants[gid := g.(consumedAt := Some(now))];
      review.actions := review.actions + [gid];
      return None;
    }
  }

  // ---- every part runs as it does alone -----------------------------------------------------------

  /** What one step is to the approval queue, the resource book and the artifact store. */
  function ToQueue(s: System, op: Op): seq<Q.Op> {
    match op
    case OnQueue(o) => if o.DoAct? then [] else [o]
    case DoClaim(gid, t, now) => if Claim(s, gid, t, now).Ok? then [Q.DoAct(gid, true, true, now)] else []
    case _ => []
  }

  function ToBooks(s: System, op: Op): seq<L.Deed> {
    match op
    case OnBooks(d) => if d.DeedClaim? then [] else [d]
    case DoClaim(gid, t, now) =>
      if Claim(s, gid, t, now).Ok? then
        var g := s.queue.grants[gid];
        [L.DeedClaim(AskOf(s.queue.proposals[g.proposal], t), HolderOf(s, gid), g.cell, now)]
      else []
    case _ => []
  }

  function ToStore(op: Op): seq<A.Op> {
    if op.OnStore? then [op.storeOp] else []
  }

  function AllToQueue(s: System, ops: seq<Op>): seq<Q.Op>
    decreases |ops|
  {
    if ops == [] then [] else ToQueue(s, ops[0]) + AllToQueue(Next(s, ops[0]), ops[1..])
  }

  function AllToBooks(s: System, ops: seq<Op>): seq<L.Deed>
    decreases |ops|
  {
    if ops == [] then [] else ToBooks(s, ops[0]) + AllToBooks(Next(s, ops[0]), ops[1..])
  }

  function AllToStore(ops: seq<Op>): seq<A.Op>
    decreases |ops|
  {
    if ops == [] then [] else ToStore(ops[0]) + AllToStore(ops[1..])
  }

  /** A claim that goes through names a running or sleeping Cell, so the queue's own side of it
      goes through as well. */
  lemma ClaimIsAnAct(s: System, gid: nat, t: Target, now: int)
    requires Claim(s, gid, t, now).Ok?
    ensures Claim(s, gid, t, now).value.queue == Q.Next(s.queue, Q.DoAct(gid, true, true, now))
    ensures gid < |s.queue.grants| && Q.Wakeable(s.queue, s.queue.grants[gid].cell)
  {
    hide C.CheckAction;
  }

  lemma QueueStep(s: System, op: Op, rest: seq<Q.Op>)
    ensures Q.Run(s.queue, ToQueue(s, op) + rest) == Q.Run(Next(s, op).queue, rest)
  {
    var ops := ToQueue(s, op);
    if op.DoClaim? && Claim(s, op.gid, op.target, op.now).Ok? {
      ClaimIsAnAct(s, op.gid, op.target, op.now);
    }
    hide Q.Next, Claim, L.After, A.Next;
    if ops == [] {
      assert ops + rest == rest;
    } else {
      assert (ops + rest)[0] == ops[0] && (ops + rest)[1..] == rest;
    }
  }

  lemma BooksStep(s: System, op: Op, rest: seq<L.Deed>)
    ensures L.AfterAll(s.books, ToBooks(s, op) + rest) == L.AfterAll(Next(s, op).books, rest)
  {
    hide Q.Next, Q.Usable, Q.Consume, A.Next, L.ClaimHeld, L.CompleteHeld, L.AbandonHeld, HolderOf;
    var deeds := ToBooks(s, op);
    if deeds == [] {
      assert deeds + rest == rest;
    } else {
      assert (deeds + rest)[0] == deeds[0] && (deeds + rest)[1..] == rest;
      assert L.After(s.books, deeds[0]) == Next(s, op).books;
    }
  }

  lemma StoreStep(s: System, op: Op, rest: seq<A.Op>)
    ensures A.Run(s.store, ToStore(op) + rest) == A.Run(Next(s, op).store, rest)
  {
    hide Q.Next, A.Next, L.After, L.ClaimHeld, Q.Usable;
    var ops := ToStore(op);
    if ops == [] {
      assert ops + rest == rest;
    } else {
      assert (ops + rest)[0] == ops[0] && (ops + rest)[1..] == rest;
    }
  }

  /** Putting the tables together adds nothing to any of them: each goes through a run of its own,
      so whatever holds of every run of the queue, of the book or of the store holds here. */
  lemma {:induction false} PartsRunAlone(s: System, ops: seq<Op>)
    ensures Run(s, ops).queue == Q.Run(s.queue, AllToQueue(s, ops))
    ensures Run(s, ops).books == L.AfterAll(s.books, AllToBooks(s, ops))
    ensures Run(s, ops).store == A.Run(s.store, AllToStore(ops))
    decreases |ops|
  {
    if ops == [] {
    } else {
      hide Next, ToQueue, ToBooks, ToStore, Q.Run, L.AfterAll, A.Run;
      PartsRunAlone(Next(s, ops[0]), ops[1..]);
      QueueStep(s, ops[0], AllToQueue(Next(s, ops[0]), ops[1..]));
      BooksStep(s, ops[0], AllToBooks(Next(s, ops[0]), ops[1..]));
      StoreStep(s, ops[0], AllToStore(ops[1..]));
    }
  }

  // ---- each row stands on its grant -----------------------------------------------------------------

  /** The row was claimed on this grant: the proposal that a person approved names its channel and
      its artifact, the grant was consumed by this claim and in time, the lineage is the Cell's,
      and what it delivers is the Cell's own and exported. */
  ghost predicate StandsOn(s: System, row: C.Row, gid: nat) {
    && row.grant == gid && S.IsFor(s.queue, gid, T.ExternalAction)
    && var g := s.queue.grants[gid]; var p := s.queue.proposals[g.proposal];
       && g.consumedAt == Some(row.claimedAt) && row.claimedAt < g.expiresAt
       && row.channel == ChannelNamed(p.channel) && row.artifact == p.artifact
       && g.cell in s.queue.cells && row.founder == s.queue.cells[g.cell].founder
       && Deliverable(s.store, row.artifact, g.cell)
  }

  ghost predicate Linked(s: System) {
    && |s.books.registry.rows| == |s.queue.actions|
    && forall i :: 0 <= i < |s.queue.actions| ==> StandsOn(s, s.books.registry.rows[i], s.queue.actions[i])
  }

  /** Rows keep what they were claimed with. */
  ghost predicate SameRows(r: C.Registry, r': C.Registry) {
    && |r'.rows| == |r.rows|
    && forall i :: 0 <= i < |r.rows| ==> r'.rows[i] == r.rows[i].(status := r'.rows[i].status)
  }

  lemma DeedsKeepRows(b: L.Books, d: L.Deed)
    requires !d.DeedClaim?
    ensures SameRows(b.registry, L.After(b, d).registry)
  {
    hide C.CheckAction, L.Add, L.Subsidise;
  }

  lemma QueueStepKeepsStanding(s: System, o: Q.Op, row: C.Row, gid: nat)
    requires StandsOn(s, row, gid)
    ensures StandsOn(s.(queue := Q.Next(s.queue, o)), row, gid)
    ensures !o.DoAct? ==> Q.Next(s.queue, o).actions == s.queue.actions
  {
    G.GrantStep(s.queue, o, gid);
    F.NextKeepsTables(s.queue, o);
    ProposalsStay(s.queue, o);
    hide Q.Next, G.SpendsNow;
  }

  lemma ProposalsStay(c: Q.Colony, o: Q.Op)
    ensures forall pid :: pid in c.proposals ==>
              pid in Q.Next(c, o).proposals && Q.Next(c, o).proposals[pid] == c.proposals[pid]
    ensures !o.DoAct? ==> Q.Next(c, o).actions == c.actions
  {
    if QR.Spends(o) {
      G.SpendIsExact(c, o);
      hide Q.Next, G.SpendsNow, Q.EntitledRung, Q.LatestExpandable;
    } else {
      S.OthersLeaveTables(c, o);
      hide Q.Next;
    }
  }

  lemma QueueKeepsLinked(s: System, o: Q.Op)
    requires Linked(s) && !o.DoAct?
    ensures Linked(s.(queue := Q.Next(s.queue, o)))
  {
    ProposalsStay(s.queue, o);
    var s' := s.(queue := Q.Next(s.queue, o));
    hide Q.Next, StandsOn;
    forall i | 0 <= i < |s.queue.actions| ensures StandsOn(s', s.books.registry.rows[i], s.queue.actions[i]) {
      QueueStepKeepsStanding(s, o, s.books.registry.rows[i], s.queue.actions[i]);
    }
  }

  lemma BooksKeepLinked(s: System, d: L.Deed)
    requires Linked(s) && !d.DeedClaim?
    ensures Linked(s.(books := L.After(s.books, d)))
  {
    DeedsKeepRows(s.books, d);
    var s' := s.(books := L.After(s.books, d));
    hide L.After;
    forall i | 0 <= i < |s.queue.actions| ensures StandsOn(s', s'.books.registry.rows[i], s.queue.actions[i]) {
      assert StandsOn(s, s.books.registry.rows[i], s.queue.actions[i]);
    }
  }

  lemma StoreKeepsLinked(s: System, o: A.Op)
    requires Linked(s) && AR.Valid(s.store)
    ensures Linked(s.(store := A.Next(s.store, o))) && AR.Valid(A.Next(s.store, o))
  {
    AR.NextKeeps(s.store, o);
    var s' := s.(store := A.Next(s.store, o));
    hide A.Next, AR.Valid;
    forall i | 0 <= i < |s.queue.actions| ensures StandsOn(s', s.books.registry.rows[i], s.queue.actions[i]) {
      assert StandsOn(s, s.books.registry.rows[i], s.queue.actions[i]);
    }
  }

  lemma ClaimAddsItsRow(s: System, gid: nat, t: Target, now: int)
    requires Claim(s, gid, t, now).Ok?
    ensures var s' := Claim(s, gid, t, now).value;
            && |s'.books.registry.rows| == |s.books.registry.rows| + 1
            && (forall i :: 0 <= i < |s.books.registry.rows| ==> s'.books.registry.rows[i] == s.books.registry.rows[i])
            && StandsOn(s', s'.books.registry.rows[|s.books.registry.rows|], gid)
            && s.queue.grants[gid].consumedAt.None?
  {
    hide C.CheckAction, L.Add;
  }

  lemma ClaimKeepsLinked(s: System, gid: nat, t: Target, now: int)
    requires Linked(s) && Claim(s, gid, t, now).Ok?
    ensures Linked(Claim(s, gid, t, now).value)
  {
    ClaimAddsItsRow(s, gid, t, now);
    ClaimIsAnAct(s, gid, t, now);
    var s' := Claim(s, gid, t, now).value;
    assert s'.queue.actions == s.queue.actions + [gid] && s'.store == s.store;
    hide Claim;
    forall i | 0 <= i < |s.queue.actions| ensures StandsOn(s', s'.books.registry.rows[i], s'.queue.actions[i]) {
      assert StandsOn(s, s.books.registry.rows[i], s.queue.actions[i]);
      QueueStepKeepsStanding(s, Q.DoAct(gid, true, true, now), s.books.registry.rows[i], s.queue.actions[i]);
    }
  }

  lemma NextKeepsLinked(s: System, op: Op)
    requires Linked(s) && AR.Valid(s.store)
    ensures Linked(Next(s, op)) && AR.Valid(Next(s, op).store)
  {
    hide Linked, AR.Valid, Claim, Q.Next, L.After, A.Next;
    match op
    case OnQueue(o) => if !o.DoAct? { QueueKeepsLinked(s, o); }
    case OnBooks(d) => if !d.DeedClaim? { BooksKeepLinked(s, d); }
    case OnStore(o) => StoreKeepsLinked(s, o);
    case DoClaim(gid, t, now) =>
      if Claim(s, gid, t, now).Ok? {
        ClaimKeepsLinked(s, gid, t, now);
        ClaimLeavesStore(s, gid, t, now);
      }
  }

  lemma ClaimLeavesStore(s: System, gid: nat, t: Target, now: int)
    requires Claim(s, gid, t, now).Ok?
    ensures Claim(s, gid, t, now).value.store == s.store
  {
    hide L.ClaimHeld, Q.Usable;
  }

  lemma {:induction false} RunKeepsLinked(s: System, ops: seq<Op>)
    requires Linked(s) && AR.Valid(s.store)
    ensures Linked(Run(s, ops)) && AR.Valid(Run(s, ops).store)
    decreases |ops|
  {
    if ops == [] {
    } else {
      NextKeepsLinked(s, ops[0]);
      hide Next, Linked, AR.Valid;
      RunKeepsLinked(Next(s, ops[0]), ops[1..]);
    }
  }

  // ---- no contact is cheap ---------------------------------------------------------------------------

  /** A request to act outside is never reversible and is assessed HIGH at least. */
  ghost predicate OutsideIsRisky(c: Q.Colony) {
    forall i :: 0 <= i < |c.requests| && c.requests[i].proposal in c.proposals
                && c.proposals[c.requests[i].proposal].kind == T.ExternalAction ==>
      !c.requests[i].reversible && T.AtLeast(c.requests[i].assessed, T.High)
  }

  lemma EnqueuedRisk(c: Q.Colony, pid: nat, overdue: nat, now: int)
    requires pid in c.proposals && c.proposals[pid].cell in c.cells && c.proposals[pid].kind == T.ExternalAction
    ensures var r := Q.NewRequest(c, pid, c.proposals[pid], c.cells[c.proposals[pid].cell], overdue, now);
            !r.reversible && T.AtLeast(r.assessed, T.High)
  {
    var p := c.proposals[pid];
    var f := Q.FactsOf(c, p, c.cells[p.cell], overdue, now);
    T.NeverLowered(f, p.claimed);
    hide T.AssessedTier, T.Signals, T.ExposureTier;
  }

  lemma NextKeepsRisky(c: Q.Colony, o: Q.Op)
    requires OutsideIsRisky(c) && S.RequestsOk(c)
    ensures OutsideIsRisky(Q.Next(c, o)) && S.RequestsOk(Q.Next(c, o))
  {
    S.RequestsStayOk(c, o);
    ProposalsStay(c, o);
    QR.NextEvolves(c, o);
    var c' := Q.Next(c, o);
    if o.DoEnqueue? && |c'.requests| > |c.requests| {
      var p := c.proposals[o.pid];
      assert c'.requests[|c.requests|] == Q.NewRequest(c, o.pid, p, c.cells[p.cell], o.overdue, o.now);
      if p.kind == T.ExternalAction { EnqueuedRisk(c, o.pid, o.overdue, o.now); }
      assert |c'.requests| == |c.requests| + 1 && c'.requests[|c.requests|].proposal == o.pid
          && c'.proposals == c.proposals;
    }
    hide Q.Next, Q.NewRequest, T.AtLeast;
    forall i | 0 <= i < |c'.requests| && c'.proposals[c'.requests[i].proposal].kind == T.ExternalAction
      ensures !c'.requests[i].reversible && T.AtLeast(c'.requests[i].assessed, T.High)
    {
      if i < |c.requests| { assert QR.Decided(c.requests[i], c'.requests[i]); }
    }
  }

  lemma {:induction false} RunKeepsRisky(c: Q.Colony, ops: seq<Q.Op>)
    requires OutsideIsRisky(c) && S.RequestsOk(c)
    ensures OutsideIsRisky(Q.Run(c, ops))
    decreases |ops|
  {
    if ops == [] {
    } else {
      hide Q.Next, OutsideIsRisky, S.RequestsOk;
      NextKeepsRisky(c, ops[0]);
      RunKeepsRisky(Q.Next(c, ops[0]), ops[1..]);
    }
  }

  // ---- the main results --------------------------------------------------------------------------------

  /** A person decided this request on its own, at HIGH or above. */
  ghost predicate DecidedByHand(c: Q.Colony, rid: nat) {
    && rid < |c.requests| && c.requests[rid].status == Q.Approved && c.requests[rid].batch == None
    && T.AtLeast(c.requests[rid].assessed, T.High)
  }

  /** Nobody is contacted unapproved. In every run of the whole: each action ever claimed stands on
      a grant of its own, consumed by that claim before it ran out; the request behind it was
      approved by hand, never in a batch; it goes out on the channel, and with the artifact, that
      the approved proposal names; and that artifact is the Cell's own, was let out by the export
      gate, and has no adversarial ancestor. */
  lemma NobodyIsContactedUnapproved(o: Q.Operator, ops: seq<Op>, i: nat)
    requires i < |Run(Start(o), ops).books.registry.rows|
    ensures var s := Run(Start(o), ops);
            var row := s.books.registry.rows[i];
            && StandsOn(s, row, row.grant)
            && DecidedByHand(s.queue, s.queue.grants[row.grant].request)
            && (forall j :: 0 <= j < |s.books.registry.rows| && j != i ==> s.books.registry.rows[j].grant != row.grant)
            && (row.artifact.Some? ==>
                  row.artifact.value < |s.store.artifacts| && !AR.HasTaintedAncestor(s.store, row.artifact.value))
  {
    hide Run, Start;
    var s := Run(Start(o), ops);
    StartIsLinked(o);
    RunKeepsLinked(Start(o), ops);
    QueueSideHolds(o, ops);
    var row, gid := s.books.registry.rows[i], s.queue.actions[i];
    assert StandsOn(s, row, gid);
    GrantOfActIsByHand(s.queue, gid);
    forall j | 0 <= j < |s.books.registry.rows| && j != i ensures s.books.registry.rows[j].grant != row.grant {
      assert StandsOn(s, s.books.registry.rows[j], s.queue.actions[j]);
    }
    if row.artifact.Some? {
      AR.StoredTaintIsAncestry(s.store, row.artifact.value);
    }
  }

  lemma EmptyIsNotRisky(o: Q.Operator)
    ensures OutsideIsRisky(Q.Empty(o)) && S.RequestsOk(Q.Empty(o)) && QR.BatchedLow(Q.Empty(o))
  {}

  lemma StartIsLinked(o: Q.Operator)
    ensures Linked(Start(o)) && AR.Valid(Start(o).store)
  {
    AR.EmptyIsValid();
  }

  lemma QueueSideHolds(o: Q.Operator, ops: seq<Op>)
    ensures var c := Run(Start(o), ops).queue; S.Accounted(c) && QR.BatchedLow(c) && OutsideIsRisky(c)
  {
    assert Start(o).queue == Q.Empty(o);
    EmptyIsNotRisky(o);
    hide *;
    PartsRunAlone(Start(o), ops);
    S.EmptyKeepsAccount(o);
    S.RunKeepsAccount(Q.Empty(o), AllToQueue(Start(o), ops));
    QR.RunBatchedLow(Q.Empty(o), AllToQueue(Start(o), ops));
    RunKeepsRisky(Q.Empty(o), AllToQueue(Start(o), ops));
  }

  lemma GrantOfActIsByHand(c: Q.Colony, gid: nat)
    requires S.Accounted(c) && QR.BatchedLow(c) && OutsideIsRisky(c) && S.IsFor(c, gid, T.ExternalAction)
    ensures DecidedByHand(c, c.grants[gid].request)
  {
    assert G.GrantOk(c, c.grants[gid]);
  }

  /** And the other way: a consumed grant to act outside has its row, and only one. */
  lemma EveryUsedGrantHasItsRow(o: Q.Operator, ops: seq<Op>, gid: nat)
    requires S.IsFor(Run(Start(o), ops).queue, gid, T.ExternalAction)
    ensures var s := Run(Start(o), ops);
            s.queue.grants[gid].consumedAt.Some?
            <==> exists i :: 0 <= i < |s.books.registry.rows| && s.books.registry.rows[i].grant == gid
  {
    hide Run, Start;
    var s := Run(Start(o), ops);
    StartIsLinked(o);
    RunKeepsLinked(Start(o), ops);
    QueueSideHolds(o, ops);
    if s.queue.grants[gid].consumedAt.Some? {
      assert S.HasBought(s.queue, gid, T.ExternalAction);
      var i :| 0 <= i < |s.queue.actions| && s.queue.actions[i] == gid;
      assert StandsOn(s, s.books.registry.rows[i], gid);
    }
    if i :| 0 <= i < |s.books.registry.rows| && s.books.registry.rows[i].grant == gid {
      assert StandsOn(s, s.books.registry.rows[i], s.queue.actions[i]);
    }
  }
}
