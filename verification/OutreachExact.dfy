/**
 A claim across all four tables at once: exactly when it goes through, and what it writes.
 */
module OutreachExact {
  import opened Basics
  import T = RiskTiers
  import Q = ReviewQueue
  import G = GrantRuns
  import C = Channels
  import CE = ChannelExact
  import L = Labour
  import LE = LabourExact
  import A = Artifacts
  import opened Outreach

  /** What the approved proposal and the operator's target come to: the channel and the artifact are
      the proposal's, the person, the domain and the account the operator's. */
  ghost predicate Comes(a: C.Ask, p: Q.Proposal, t: Target) {
    && a.counterparty == t.counterparty && a.domain == t.domain && a.account == t.account && a.artifact == p.artifact
    && (a.channel == C.Email <==> p.channel == "email")
    && (a.channel == C.MarketplaceListing <==> p.channel == "marketplace_listing")
    && (a.channel == C.WebPublish <==> p.channel == "web_publish")
  }

  /** Nothing to deliver, or the Cell's own work, out of the colony already. */
  predicate MayDeliver(s: A.Store, artifact: Option<nat>, cell: nat) {
    match artifact
    case None => true
    case Some(id) => id < |s.artifacts| && s.artifacts[id].cell == cell && s.artifacts[id].exported != None
  }

  lemma ComesOnce(p: Q.Proposal, t: Target, a: C.Ask)
    requires Comes(a, p, t)
    ensures AskOf(p, t) == a
  {}

  lemma HoldersFacts(s: System, gid: nat)
    requires gid < |s.queue.grants| && s.queue.grants[gid].proposal in s.queue.proposals
    ensures var g := s.queue.grants[gid]; var w := HolderOf(s, gid);
            && w.grant == gid && w.granted && (w.mayAct <==> G.MayAct(s.queue, gid))
            && (w.deliverable <==> MayDeliver(s.store, s.queue.proposals[g.proposal].artifact, g.cell))
            && (g.cell in s.queue.cells ==> w.founder == s.queue.cells[g.cell].founder)
  {}

  lemma FormIsExact(c: Q.Colony, gid: nat, now: int)
    ensures Q.Usable(c, gid, T.ExternalAction, now).None? <==> G.InForce(c, gid, T.ExternalAction, now)
  {}

  /** A claim goes through exactly when its grant is in force for an external action and was never
      claimed on, its Cell is running or asleep, the registry lets this lineage out on this channel
      to this target, the Cell has the hold free, and what it delivers is its own and exported. */
  lemma ClaimIsExact(s: System, gid: nat, t: Target, a: C.Ask, now: int)
    requires G.InForce(s.queue, gid, T.ExternalAction, now) ==>
               Comes(a, s.queue.proposals[s.queue.grants[gid].proposal], t)
    ensures Claim(s, gid, t, now).Ok? <==>
              && G.InForce(s.queue, gid, T.ExternalAction, now) && G.MayAct(s.queue, gid)
              && gid !in s.books.registry.consumed
              && var g := s.queue.grants[gid];
                 && CE.MayGo(s.books.registry, a, s.queue.cells[g.cell].founder, now)
                 && LE.HoldOf(a.channel) <= L.Balance(s.books.cash, g.cell)
                 && MayDeliver(s.store, a.artifact, g.cell)
  {
    FormIsExact(s.queue, gid, now);
    if G.InForce(s.queue, gid, T.ExternalAction, now) {
      var g := s.queue.grants[gid];
      ComesOnce(s.queue.proposals[g.proposal], t, a);
      HoldersFacts(s, gid);
      LE.ClaimingIsExact(s.books, a, HolderOf(s, gid), g.cell, now);
      hide L.ClaimHeld, CE.MayGo, HolderOf, AskOf, MayDeliver, Q.Usable, LE.Moves;
    } else {
      hide L.ClaimHeld, CE.MayGo;
    }
  }

  /** It then consumes the grant, adds one row that says all this, and ties up the hold. */
  lemma ClaimWrites(s: System, gid: nat, t: Target, a: C.Ask, now: int)
    requires Claim(s, gid, t, now).Ok?
    requires Comes(a, s.queue.proposals[s.queue.grants[gid].proposal], t)
    ensures var s' := Claim(s, gid, t, now).value;
            var g := s.queue.grants[gid];
            && s'.queue == s.queue.(grants := s.queue.grants[gid := g.(consumedAt := Some(now))],
                                    actions := s.queue.actions + [gid])
            && s'.store == s.store && g.cell in s.queue.cells
            && s'.books.registry.rows
               == s.books.registry.rows
                  + [C.Row(a.channel, CE.GivenKey(t.counterparty), CE.GivenKey(t.domain), CE.GivenKey(t.account),
                           a.artifact, s.queue.cells[g.cell].founder, gid, C.Claimed, now)]
            && s'.books.holds == s.books.holds
                                 + [L.Hold(g.cell, LE.HoldOf(a.channel), 0, L.Reserved, now + 28_800, 0)]
            && LE.Moves(s.books, s'.books, g.cell, -LE.HoldOf(a.channel), LE.HoldOf(a.channel))
  {
    var g := s.queue.grants[gid];
    FormIsExact(s.queue, gid, now);
    ComesOnce(s.queue.proposals[g.proposal], t, a);
    HoldersFacts(s, gid);
    LE.ClaimingIsExact(s.books, a, HolderOf(s, gid), g.cell, now);
    CE.ClaimByChannel(s.books.registry, a, HolderOf(s, gid).(funded := true), now);
    hide L.ClaimHeld, CE.MayGo, HolderOf, AskOf, MayDeliver, LE.Moves, C.Claim;
  }
}
