/**
 When a crash shows. A redelivered wake reads a call that died in flight as a provider that
 did not answer; this module says exactly when that changes what the wake records.
 */
module WakeRecovery {
  import opened Basics
  import opened Wake

  // ---- what a wake has consulted ----------------------------------------------------------

  /** The reply under this key can no longer change. */
  predicate Fixed(w: World, g: Gateway, key: StepKey) {
    key in g.rows || w.answer(key).Refuses?
  }

  function CritiqueStep(m: Genome, w: World, g: Gateway, round: nat): (Option<Verdict>, StepNote) {
    Classified(Critique(round), Ask(w, g, Critique(round)), m.verdict)
  }

  predicate AsksForRevision(m: Genome, w: World, g: Gateway, round: nat) {
    var (verdict, _) := CritiqueStep(m, w, g, round);
    verdict.Some? && verdict.value.Revise?
  }

  /** A round whose replies can all be read off its rows. */
  predicate RoundFixed(m: Genome, w: World, g: Gateway, round: nat) {
    Fixed(w, g, Critique(round)) && (AsksForRevision(m, w, g, round) ==> Fixed(w, g, ReviseRound(round)))
  }

  function RoundPath(m: Genome, w: World, g: Gateway, round: nat): set<StepKey> {
    {Critique(round)}
    + if Fixed(w, g, Critique(round)) && AsksForRevision(m, w, g, round) then {ReviseRound(round)} else {}
  }

  function LoopPath(m: Genome, w: World, g: Gateway, current: Proposal, round: nat, steps: seq<StepNote>): set<StepKey>
    requires round < MAX_CRITIQUE_REVISIONS
    decreases MAX_CRITIQUE_REVISIONS - round
  {
    RoundPath(m, w, g, round) +
    if !RoundFixed(m, w, g, round) then {}
    else
      match DecideRound(m, w, g, current, round, steps)
      case Stop(_) => {}
      case Again(revised, steps') =>
        if round + 1 >= MAX_CRITIQUE_REVISIONS then {} else LoopPath(m, w, g, revised, round + 1, steps')
  }

  function ReviewPath(m: Genome, w: World, g: Gateway): set<StepKey> {
    {SecondDraft}
    + if Fixed(w, g, SecondDraft) && DecideStep(m, w, g, SecondDraft).0.Some? then {Review} else {}
  }

  function WorkflowPath(m: Genome, w: World, g: Gateway, draft: Proposal): set<StepKey> {
    match m.structure
    case SinglePass => {}
    case IterativeRefinement => {ReviseOnce}
    case ParallelReview => ReviewPath(m, w, g)
    case SelfCritiqueLoop => if m.graphInstalled then LoopPath(m, w, g, draft, 0, []) else {}
  }

  function RepairPath(m: Genome, w: World, g: Gateway): set<StepKey> {
    var (p, _) := DecideStep(m, w, g, Repair);
    {Repair} + if Fixed(w, g, Repair) && p.Some? then WorkflowPath(m, w, g, p.value) else {}
  }

  /** The keys the decision reads, up to the first one that has not been called. */
  function WakePath(m: Genome, w: World, g: Gateway): set<StepKey> {
    {Draft} +
    if !Fixed(w, g, Draft) || !Ask(w, g, Draft).Text? then {}
    else
      match m.parse(Draft, Ask(w, g, Draft).text)
      case Some(p) => WorkflowPath(m, w, g, p)
      case None => RepairPath(m, w, g)
  }

  // ---- rows exist only for keys the decision reads -----------------------------------------

  /** Rows are only added, and what was asked and answered stays so. */
  ghost predicate Follows(w: World, g: Gateway, g': Gateway) {
    Honest(w, g') && (forall k :: k in g.rows ==> k in g'.rows && g'.rows[k] == g.rows[k])
  }

  lemma FixedStays(w: World, g: Gateway, g': Gateway, key: StepKey)
    requires Fixed(w, g, key) && Follows(w, g, g')
    ensures Fixed(w, g', key) && Ask(w, g', key) == Ask(w, g, key)
  {}

  lemma FollowsOn(w: World, g: Gateway, g1: Gateway, g2: Gateway)
    requires Follows(w, g, g1) && Follows(w, g1, g2)
    ensures Follows(w, g, g2)
  {}

  lemma RoundStays(m: Genome, w: World, g: Gateway, g': Gateway, current: Proposal, round: nat, steps: seq<StepNote>)
    requires RoundFixed(m, w, g, round) && Follows(w, g, g')
    ensures RoundFixed(m, w, g', round) && RoundPath(m, w, g', round) == RoundPath(m, w, g, round)
    ensures DecideRound(m, w, g', current, round, steps) == DecideRound(m, w, g, current, round, steps)
  {
    FixedStays(w, g, g', Critique(round));
    if AsksForRevision(m, w, g, round) {
      FixedStays(w, g, g', ReviseRound(round));
    }
  }

  lemma RoundPathGrows(m: Genome, w: World, g: Gateway, g': Gateway, round: nat)
    requires Follows(w, g, g')
    ensures RoundPath(m, w, g, round) <= RoundPath(m, w, g', round)
  {
    if Fixed(w, g, Critique(round)) {
      FixedStays(w, g, g', Critique(round));
    }
  }

  lemma {:induction false} LoopPathGrows(
    m: Genome, w: World, g: Gateway, g': Gateway, current: Proposal, round: nat, steps: seq<StepNote>)
    requires Follows(w, g, g') && round < MAX_CRITIQUE_REVISIONS
    ensures LoopPath(m, w, g, current, round, steps) <= LoopPath(m, w, g', current, round, steps)
    decreases MAX_CRITIQUE_REVISIONS - round
  {
    RoundPathGrows(m, w, g, g', round);
    if RoundFixed(m, w, g, round) {
      RoundStays(m, w, g, g', current, round, steps);
      hide RoundPath, RoundFixed, DecideRound;
      var r := DecideRound(m, w, g, current, round, steps);
      if r.Again? && round + 1 < MAX_CRITIQUE_REVISIONS {
        LoopPathGrows(m, w, g, g', r.current, round + 1, r.steps);
      }
    }
  }

  lemma WorkflowPathGrows(m: Genome, w: World, g: Gateway, g': Gateway, draft: Proposal)
    requires Follows(w, g, g')
    ensures WorkflowPath(m, w, g, draft) <= WorkflowPath(m, w, g', draft)
  {
    match m.structure
    case SinglePass =>
    case IterativeRefinement =>
    case ParallelReview =>
      if Fixed(w, g, SecondDraft) { FixedStays(w, g, g', SecondDraft); }
    case SelfCritiqueLoop => LoopPathGrows(m, w, g, g', draft, 0, []);
  }

  lemma WakePathGrows(m: Genome, w: World, g: Gateway, g': Gateway)
    requires Follows(w, g, g')
    ensures WakePath(m, w, g) <= WakePath(m, w, g')
  {
    hide WorkflowPath;
    if Fixed(w, g, Draft) && Ask(w, g, Draft).Text? {
      FixedStays(w, g, g', Draft);
      match m.parse(Draft, Ask(w, g, Draft).text)
      case Some(p) => WorkflowPathGrows(m, w, g, g', p);
      case None =>
        var (p, _) := DecideStep(m, w, g, Repair);
        if Fixed(w, g, Repair) {
          FixedStays(w, g, g', Repair);
          if p.Some? { WorkflowPathGrows(m, w, g, g', p.value); }
        }
    }
  }

  lemma RowIsAdded(w: World, g: Gateway, key: StepKey, row: Row, served: multiset<StepKey>)
    requires Honest(w, g) && key !in g.rows && !w.answer(key).Refuses?
             && (row.Reserved? || row == Settled(w.answer(key)))
    ensures Follows(w, g, Gateway(g.rows[key := row], served))
  {}

  lemma CallFollows(w: World, g: Gateway, key: StepKey, fuel: nat)
    requires Honest(w, g)
    ensures var r := GatewayCall(w, g, key, fuel);
            && Follows(w, g, r.0) && r.0.rows.Keys <= g.rows.Keys + {key}
            && (r.1.Done? ==> Fixed(w, r.0, key) && r.1.value == Ask(w, r.0, key)) && !r.1.Raise?
  {
    var r := GatewayCall(w, g, key, fuel);
    if key in g.rows || w.answer(key).Refuses? || fuel == 0 {
      assert r.0 == g;
    } else {
      hide Honest, Follows;
      RowIsAdded(w, g, key, if fuel <= 2 then Reserved else Settled(w.answer(key)), r.0.served);
    }
  }

  lemma StepFollows<T>(w: World, g: Gateway, key: StepKey, fuel: nat, parse: string -> Option<T>)
    requires Honest(w, g)
    ensures var r := StepCall(w, g, key, fuel, parse);
            && Follows(w, g, r.0) && r.0.rows.Keys <= g.rows.Keys + {key}
            && (r.1.Done? ==> Fixed(w, r.0, key) && r.1.value == Classified(key, Ask(w, r.0, key), parse))
            && !r.1.Raise?
  {
    CallFollows(w, g, key, fuel);
  }

  lemma RoundFollows(m: Genome, w: World, g: Gateway, fuel: nat, current: Proposal, round: nat, steps: seq<StepNote>)
    requires Honest(w, g)
    ensures var r := CritiqueRound(m, w, g, fuel, current, round, steps);
            && Follows(w, g, r.0) && r.0.rows.Keys <= g.rows.Keys + RoundPath(m, w, r.0, round) && !r.1.Raise?
            && (r.1.Done? ==>
                  RoundFixed(m, w, r.0, round) && r.1.value == DecideRound(m, w, r.0, current, round, steps))
  {
    StepFollows(w, g, Critique(round), fuel, m.verdict);
    var first := StepCall(w, g, Critique(round), fuel, m.verdict);
    if first.1.Done? && first.1.value.0.Some? && first.1.value.0.value.Revise? {
      var key := ReviseRound(round);
      StepFollows(w, first.0, key, first.1.fuel, Parser(m, key));
      var second := StepCall(w, first.0, key, first.1.fuel, Parser(m, key));
      FixedStays(w, first.0, second.0, Critique(round));
      FollowsOn(w, g, first.0, second.0);
    }
  }

  lemma LoopPathUnfolds(m: Genome, w: World, g: Gateway, current: Proposal, round: nat, steps: seq<StepNote>)
    requires round < MAX_CRITIQUE_REVISIONS
    ensures RoundPath(m, w, g, round) <= LoopPath(m, w, g, current, round, steps)
    ensures var r := DecideRound(m, w, g, current, round, steps);
            RoundFixed(m, w, g, round) && r.Again? && round + 1 < MAX_CRITIQUE_REVISIONS ==>
              LoopPath(m, w, g, r.current, round + 1, r.steps) <= LoopPath(m, w, g, current, round, steps)
  {
    hide RoundPath, RoundFixed, DecideRound;
  }

  lemma {:induction false} LoopFollows(m: Genome, w: World, g: Gateway, fuel: nat, current: Proposal, round: nat,
                                       steps: seq<StepNote>)
    requires Honest(w, g) && round < MAX_CRITIQUE_REVISIONS
    ensures var r := Critiqued(m, w, g, fuel, current, round, steps);
            Follows(w, g, r.0) && r.0.rows.Keys <= g.rows.Keys + LoopPath(m, w, r.0, current, round, steps)
    decreases MAX_CRITIQUE_REVISIONS - round
  {
    RoundFollows(m, w, g, fuel, current, round, steps);
    var first := CritiqueRound(m, w, g, fuel, current, round, steps);
    FollowsIsHonest(w, g, first.0);
    hide CritiqueRound, LoopPath, RoundPath, RoundFixed, DecideRound, Follows, Honest;
    if first.1.Done? && first.1.value.Again? && round + 1 < MAX_CRITIQUE_REVISIONS {
      var revised, steps' := first.1.value.current, first.1.value.steps;
      LoopFollows(m, w, first.0, first.1.fuel, revised, round + 1, steps');
      var rest := Critiqued(m, w, first.0, first.1.fuel, revised, round + 1, steps');
      RoundStays(m, w, first.0, rest.0, current, round, steps);
      FollowsOn(w, g, first.0, rest.0);
      LoopPathUnfolds(m, w, rest.0, current, round, steps);
    } else {
      LoopPathUnfolds(m, w, first.0, current, round, steps);
    }
  }

  lemma FollowsIsHonest(w: World, g: Gateway, g': Gateway)
    requires Follows(w, g, g')
    ensures Honest(w, g')
  {}

  lemma ReviewFollows(m: Genome, w: World, g: Gateway, fuel: nat)
    requires Honest(w, g)
    ensures var r := Reviewed(m, w, g, fuel);
            Follows(w, g, r.0) && r.0.rows.Keys <= g.rows.Keys + ReviewPath(m, w, r.0)
  {
    StepFollows(w, g, SecondDraft, fuel, Parser(m, SecondDraft));
    var first := StepCall(w, g, SecondDraft, fuel, Parser(m, SecondDraft));
    if first.1.Done? && first.1.value.0.Some? {
      StepFollows(w, first.0, Review, first.1.fuel, Parser(m, Review));
      var second := StepCall(w, first.0, Review, first.1.fuel, Parser(m, Review));
      FixedStays(w, first.0, second.0, SecondDraft);
      FollowsOn(w, g, first.0, second.0);
    }
  }

  lemma WorkflowFollows(m: Genome, w: World, g: Gateway, fuel: nat, draft: Proposal)
    requires Honest(w, g)
    ensures var r := Worked(m, w, g, fuel, draft);
            Follows(w, g, r.0) && r.0.rows.Keys <= g.rows.Keys + WorkflowPath(m, w, r.0, draft)
  {
    match m.structure
    case SinglePass =>
    case IterativeRefinement => StepFollows(w, g, ReviseOnce, fuel, Parser(m, ReviseOnce));
    case ParallelReview => ReviewFollows(m, w, g, fuel);
    case SelfCritiqueLoop => LoopFollows(m, w, g, fuel, draft, 0, []);
  }

  lemma RepairFollows(m: Genome, w: World, g: Gateway, fuel: nat)
    requires Honest(w, g)
    ensures var r := Repaired(m, w, g, fuel);
            Follows(w, g, r.0) && r.0.rows.Keys <= g.rows.Keys + RepairPath(m, w, r.0)
  {
    hide WorkflowPath;
    StepFollows(w, g, Repair, fuel, Parser(m, Repair));
    var first := StepCall(w, g, Repair, fuel, Parser(m, Repair));
    if first.1.Done? && first.1.value.0.Some? {
      var p := first.1.value.0.value;
      WorkflowFollows(m, w, first.0, first.1.fuel, p);
      var rest := Worked(m, w, first.0, first.1.fuel, p);
      FixedStays(w, first.0, rest.0, Repair);
      FollowsOn(w, g, first.0, rest.0);
    }
  }

  lemma ThoughtFollows(m: Genome, w: World, g: Gateway, fuel: nat)
    requires Honest(w, g)
    ensures var r := Thought(m, w, g, fuel);
            Follows(w, g, r.0) && r.0.rows.Keys <= g.rows.Keys + WakePath(m, w, r.0)
  {
    CallFollows(w, g, Draft, fuel);
    var first := GatewayCall(w, g, Draft, fuel);
    if first.1.Done? && first.1.value.Text? {
      hide GatewayCall, Worked, Repaired, WorkflowPath, RepairPath;
      var left := first.1.fuel;
      match m.parse(Draft, first.1.value.text)
      case Some(p) =>
        WorkflowFollows(m, w, first.0, left, p);
        FixedStays(w, first.0, Worked(m, w, first.0, left, p).0, Draft);
        FollowsOn(w, g, first.0, Worked(m, w, first.0, left, p).0);
      case None =>
        RepairFollows(m, w, first.0, left);
        FixedStays(w, first.0, Repaired(m, w, first.0, left).0, Draft);
        FollowsOn(w, g, first.0, Repaired(m, w, first.0, left).0);
    }
  }

  /** Every row of a wake is one its own decision reads. */
  lemma {:induction false} RowsAreOnThePath(m: Genome, w: World, st: Store, schedule: seq<Delivery>)
    requires Steady(w, schedule) && Honest(w, st.gateway) && st.gateway.rows.Keys <= WakePath(m, w, st.gateway)
    ensures var g := Deliver(m, st, schedule).gateway;
            Honest(w, g) && g.rows.Keys <= WakePath(m, w, g)
    decreases |schedule|
  {
    if schedule == [] {
    } else {
      assert schedule[0].world == w;
      var st' := Attempt(m, w, st, schedule[0].fuel);
      if st.deliberations == [] {
        ThoughtFollows(m, w, st.gateway, schedule[0].fuel);
        WakePathGrows(m, w, st.gateway, Thought(m, w, st.gateway, schedule[0].fuel).0);
      }
      RowsAreOnThePath(m, w, st', schedule[1..]);
    }
  }

  // ---- which lost calls matter -----------------------------------------------------------------

  /** The provider would have answered this call, and the answer would have been used. */
  predicate WouldValidate(m: Genome, w: World, key: StepKey) {
    && w.answer(key).Replies?
    && match key
       case Draft => true
       case Critique(_) => m.verdict(w.answer(key).text).Some?
       case _ => m.parse(key, w.answer(key).text).Some?
  }

  /** A call lost in flight whose reply the wake could have used. */
  predicate Missed(m: Genome, w: World, g: Gateway, key: StepKey) {
    key in Lost(g) && WouldValidate(m, w, key)
  }

  lemma StepExactly(m: Genome, w: World, g: Gateway, key: StepKey)
    requires Honest(w, g) && !key.Draft? && !key.Critique?
    ensures DecideStep(m, w, g, key) == DecideStep(m, w, NO_CALLS, key) <==> !Missed(m, w, g, key)
    ensures Missed(m, w, g, key) ==>
              && DecideStep(m, w, g, key) == (None, StepNote(key, true, false))
              && DecideStep(m, w, NO_CALLS, key).0.Some?
              && DecideStep(m, w, NO_CALLS, key).1 == StepNote(key, true, true)
  {}

  lemma CritiqueExactly(m: Genome, w: World, g: Gateway, round: nat)
    requires Honest(w, g)
    ensures CritiqueStep(m, w, g, round) == CritiqueStep(m, w, NO_CALLS, round) <==> !Missed(m, w, g, Critique(round))
    ensures Missed(m, w, g, Critique(round)) ==>
              && CritiqueStep(m, w, g, round) == (None, StepNote(Critique(round), true, false))
              && CritiqueStep(m, w, NO_CALLS, round).1 == StepNote(Critique(round), true, true)
  {}

  lemma DraftExactly(m: Genome, w: World, g: Gateway)
    requires Honest(w, g)
    ensures Ask(w, g, Draft) == Ask(w, NO_CALLS, Draft) <==> !Missed(m, w, g, Draft)
    ensures Missed(m, w, g, Draft) ==> Ask(w, g, Draft) == NoReply && Ask(w, NO_CALLS, Draft).Text?
  {}

  /** The record of a round begins with what was known before it and its critique. */
  lemma RoundRecords(m: Genome, w: World, g: Gateway, current: Proposal, round: nat, steps: seq<StepNote>)
    ensures var r := DecideRound(m, w, g, current, round, steps);
            var all := if r.Stop? then r.result.steps else r.steps;
            var note := CritiqueStep(m, w, g, round).1;
            all == if AsksForRevision(m, w, g, round)
                   then steps + [note, DecideStep(m, w, g, ReviseRound(round)).1] else steps + [note]
  {}

  lemma {:induction false} LoopRecords(m: Genome, w: World, g: Gateway, current: Proposal, round: nat,
                                       steps: seq<StepNote>)
    requires round < MAX_CRITIQUE_REVISIONS
    ensures var r := DecideRound(m, w, g, current, round, steps);
            (if r.Stop? then r.result.steps else r.steps) <= DecideLoop(m, w, g, current, round, steps).steps
    decreases MAX_CRITIQUE_REVISIONS - round
  {
    var r := DecideRound(m, w, g, current, round, steps);
    if r.Again? && round + 1 < MAX_CRITIQUE_REVISIONS {
      LoopRecords(m, w, g, r.current, round + 1, r.steps);
      RoundRecords(m, w, g, r.current, round + 1, r.steps);
      var next := DecideRound(m, w, g, r.current, round + 1, r.steps);
      assert r.steps <= if next.Stop? then next.result.steps else next.steps;
    }
  }

  // ---- no lost call matters: nothing changes ------------------------------------------------------

  ghost predicate NoneMissed(m: Genome, w: World, g: Gateway) {
    forall k :: !Missed(m, w, g, k)
  }

  lemma RoundSame(m: Genome, w: World, g: Gateway, current: Proposal, round: nat, steps: seq<StepNote>)
    requires Honest(w, g) && !Missed(m, w, g, Critique(round))
    requires AsksForRevision(m, w, g, round) ==> !Missed(m, w, g, ReviseRound(round))
    ensures DecideRound(m, w, g, current, round, steps) == DecideRound(m, w, NO_CALLS, current, round, steps)
  {
    CritiqueExactly(m, w, g, round);
    if AsksForRevision(m, w, g, round) {
      StepExactly(m, w, g, ReviseRound(round));
    }
  }

  lemma {:induction false} LoopSame(m: Genome, w: World, g: Gateway, current: Proposal, round: nat,
                                    steps: seq<StepNote>)
    requires Honest(w, g) && NoneMissed(m, w, g) && round < MAX_CRITIQUE_REVISIONS
    ensures DecideLoop(m, w, g, current, round, steps) == DecideLoop(m, w, NO_CALLS, current, round, steps)
    decreases MAX_CRITIQUE_REVISIONS - round
  {
    RoundSame(m, w, g, current, round, steps);
    var r := DecideRound(m, w, g, current, round, steps);
    if r.Again? && round + 1 < MAX_CRITIQUE_REVISIONS {
      LoopSame(m, w, g, r.current, round + 1, r.steps);
    }
  }

  lemma WorkflowSame(m: Genome, w: World, g: Gateway, draft: Proposal)
    requires Honest(w, g) && NoneMissed(m, w, g)
    ensures DecideWorkflow(m, w, g, draft) == DecideWorkflow(m, w, NO_CALLS, draft)
  {
    match m.structure
    case SinglePass =>
    case IterativeRefinement => StepExactly(m, w, g, ReviseOnce);
    case ParallelReview =>
      StepExactly(m, w, g, SecondDraft);
      StepExactly(m, w, g, Review);
    case SelfCritiqueLoop => LoopSame(m, w, g, draft, 0, []);
  }

  lemma DecideUnchanged(m: Genome, w: World, g: Gateway)
    requires Honest(w, g) && NoneMissed(m, w, g)
    ensures Decide(m, w, g) == Decide(m, w, NO_CALLS)
  {
    hide DecideWorkflow, Missed;
    DraftExactly(m, w, g);
    StepExactly(m, w, g, Repair);
    var (p, _) := DecideStep(m, w, g, Repair);
    if p.Some? { WorkflowSame(m, w, g, p.value); }
    if Ask(w, g, Draft).Text? && m.parse(Draft, Ask(w, g, Draft).text).Some? {
      WorkflowSame(m, w, g, m.parse(Draft, Ask(w, g, Draft).text).value);
    }
  }

  // ---- one that matters: the record differs ----------------------------------------------------------

  lemma {:induction false} LoopDiffers(
    m: Genome, w: World, g: Gateway, current: Proposal, round: nat, steps: seq<StepNote>, key: StepKey)
    requires Honest(w, g) && Missed(m, w, g, key) && round < MAX_CRITIQUE_REVISIONS
    requires key in LoopPath(m, w, g, current, round, steps)
    ensures DecideLoop(m, w, g, current, round, steps).steps != DecideLoop(m, w, NO_CALLS, current, round, steps).steps
    decreases MAX_CRITIQUE_REVISIONS - round
  {
    RoundRecords(m, w, g, current, round, steps);
    RoundRecords(m, w, NO_CALLS, current, round, steps);
    LoopRecords(m, w, NO_CALLS, current, round, steps);
    var all := DecideLoop(m, w, g, current, round, steps).steps;
    var all' := DecideLoop(m, w, NO_CALLS, current, round, steps).steps;
    if Missed(m, w, g, Critique(round)) {
      CritiqueExactly(m, w, g, round);
      assert all == steps + [StepNote(Critique(round), true, false)];
      assert all'[|steps|] == StepNote(Critique(round), true, true);
    } else if AsksForRevision(m, w, g, round) && Missed(m, w, g, ReviseRound(round)) {
      CritiqueExactly(m, w, g, round);
      StepExactly(m, w, g, ReviseRound(round));
      assert all[|steps| + 1] == StepNote(ReviseRound(round), true, false);
      assert all'[|steps| + 1] == StepNote(ReviseRound(round), true, true);
    } else {
      RoundSame(m, w, g, current, round, steps);
      assert key !in RoundPath(m, w, g, round);
      var r := DecideRound(m, w, g, current, round, steps);
      LoopDiffers(m, w, g, r.current, round + 1, r.steps, key);
    }
  }

  lemma ReviewDiffers(m: Genome, w: World, g: Gateway, draft: Proposal, key: StepKey)
    requires Honest(w, g) && Missed(m, w, g, key) && key in ReviewPath(m, w, g) && m.structure == ParallelReview
    ensures DecideWorkflow(m, w, g, draft) != DecideWorkflow(m, w, NO_CALLS, draft)
  {
    StepExactly(m, w, g, SecondDraft);
    StepExactly(m, w, g, Review);
    var out, out' := DecideWorkflow(m, w, g, draft), DecideWorkflow(m, w, NO_CALLS, draft);
    hide Missed, ReviewPath, DecideWorkflow;
    if Missed(m, w, g, SecondDraft) {
      ReviewSteps(m, w, g, draft);
      ReviewSteps(m, w, NO_CALLS, draft);
      assert out.steps[0] != out'.steps[0];
    } else {
      ReviewKey(m, w, g, key);
      ReviewSteps(m, w, g, draft);
      ReviewSteps(m, w, NO_CALLS, draft);
      assert out.steps[1] != out'.steps[1];
    }
  }

  lemma ReviewKey(m: Genome, w: World, g: Gateway, key: StepKey)
    requires key in ReviewPath(m, w, g) && Missed(m, w, g, key) && !Missed(m, w, g, SecondDraft)
    ensures key == Review && DecideStep(m, w, g, SecondDraft).0.Some?
  {}

  lemma ReviewSteps(m: Genome, w: World, g: Gateway, draft: Proposal)
    requires m.structure == ParallelReview
    ensures var out := DecideWorkflow(m, w, g, draft);
            var first := DecideStep(m, w, g, SecondDraft);
            out.Proposed? && out.steps == if first.0.None? then [first.1] else [first.1, DecideStep(m, w, g, Review).1]
  {}

  lemma WorkflowDiffers(m: Genome, w: World, g: Gateway, draft: Proposal, key: StepKey)
    requires Honest(w, g) && Missed(m, w, g, key) && key in WorkflowPath(m, w, g, draft)
    ensures DecideWorkflow(m, w, g, draft) != DecideWorkflow(m, w, NO_CALLS, draft)
  {
    match m.structure
    case IterativeRefinement =>
      StepExactly(m, w, g, ReviseOnce);
      assert DecideWorkflow(m, w, g, draft).steps[0] != DecideWorkflow(m, w, NO_CALLS, draft).steps[0];
    case ParallelReview => ReviewDiffers(m, w, g, draft, key);
    case SelfCritiqueLoop => LoopDiffers(m, w, g, draft, 0, [], key);
  }

  lemma RepairDiffers(m: Genome, w: World, g: Gateway, key: StepKey)
    requires Honest(w, g) && Missed(m, w, g, key) && key in RepairPath(m, w, g)
    ensures DecideRepair(m, w, g) != DecideRepair(m, w, NO_CALLS)
  {
    StepExactly(m, w, g, Repair);
    if !Missed(m, w, g, Repair) {
      hide DecideWorkflow, WorkflowPath;
      WorkflowDiffers(m, w, g, DecideStep(m, w, g, Repair).0.value, key);
    }
  }

  lemma DecideChanged(m: Genome, w: World, g: Gateway, key: StepKey)
    requires Honest(w, g) && Missed(m, w, g, key) && key in WakePath(m, w, g)
    ensures Decide(m, w, g) != Decide(m, w, NO_CALLS)
  {
    DraftExactly(m, w, g);
    if !Missed(m, w, g, Draft) {
      hide DecideWorkflow, WorkflowPath, DecideRepair, RepairPath;
      var t := Ask(w, g, Draft).text;
      match m.parse(Draft, t)
      case Some(p) => WorkflowDiffers(m, w, g, p, key);
      case None => RepairDiffers(m, w, g, key);
    }
  }

  /** Under any crashes and redeliveries, the recovered run records what the crash-free run
      records exactly when no call lost in flight had an answer the wake could have used. */
  lemma CrashesShowExactly(m: Genome, w: World, schedule: seq<Delivery>)
    requires Steady(w, schedule)
    requires Deliver(m, FRESH, schedule).deliberations != []
    ensures var st := Deliver(m, FRESH, schedule);
            st.deliberations == Attempt(m, w, FRESH, FullFuel(m.structure)).deliberations
            <==> forall k :: k in Lost(st.gateway) ==> !WouldValidate(m, w, k)
  {
    var g := Deliver(m, FRESH, schedule).gateway;
    RunMeans(m, w, schedule);
    RowsAreOnThePath(m, w, FRESH, schedule);
    StepKeysBound(m.structure);
    NeverDeclined(m, w, g);
    CrashFreeRun(StepKeys(m.structure), m, w, FullFuel(m.structure));
    MissedMeans(m, w, g);
    hide Decide, Deliver, Attempt;
    if NoneMissed(m, w, g) {
      DecideUnchanged(m, w, g);
    } else {
      var k :| Missed(m, w, g, k);
      DecideChanged(m, w, g, k);
    }
  }

  lemma MissedMeans(m: Genome, w: World, g: Gateway)
    ensures NoneMissed(m, w, g) <==> forall k :: k in Lost(g) ==> !WouldValidate(m, w, k)
  {
    if NoneMissed(m, w, g) {
      forall k | k in Lost(g) ensures !WouldValidate(m, w, k) {
        assert !Missed(m, w, g, k);
      }
    }
  }

  lemma NeverDeclined(m: Genome, w: World, g: Gateway)
    requires Honest(w, g) && Decide(m, w, g).Records?
    ensures Decide(m, w, NO_CALLS).Records?
  {}
}
