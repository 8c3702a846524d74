/**
 What a wake records, read off the gateway's rows: which steps it lists, how each came out, and
 whose reply the recorded proposal is. Nothing here mentions how the workflow is run.
 */
module WakeRecord {
  import opened Basics
  import opened Wake

  // ---- reading the rows -----------------------------------------------------------------

  /** The text that came back under a key. */
  function TextUnder(g: Gateway, key: StepKey): Option<string> {
    if key in g.rows && g.rows[key].Succeeded? then Some(g.rows[key].reply) else None
  }

  function ProposalUnder(m: Genome, g: Gateway, key: StepKey): Option<Proposal> {
    var text := TextUnder(g, key);
    if text.Some? then m.parse(key, text.value) else None
  }

  function VerdictUnder(m: Genome, g: Gateway, round: nat): Option<Verdict> {
    var text := TextUnder(g, Critique(round));
    if text.Some? then m.verdict(text.value) else None
  }

  predicate WantsRevision(m: Genome, g: Gateway, round: nat) {
    VerdictUnder(m, g, round).Some? && VerdictUnder(m, g, round).value != Keep
  }

  /** The steps whose reply can be the proposal a wake records. */
  predicate Bears(key: StepKey) {
    key == ReviseOnce || key == Review || key.ReviseRound?
  }

  /** A note is true: called exactly if there is a row, valid exactly if its text was of use. */
  predicate NoteIsTrue(m: Genome, g: Gateway, note: StepNote) {
    && (note.called <==> note.key in g.rows)
    && (note.valid <==>
          if note.key.Critique? then VerdictUnder(m, g, note.key.round).Some?
          else ProposalUnder(m, g, note.key).Some?)
  }

  // ---- which steps there are ------------------------------------------------------------

  /** The keys of the critique loop in the order of their turns. */
  function LoopKey(i: nat): StepKey {
    if i % 2 == 0 then Critique(i / 2) else ReviseRound(i / 2)
  }

  /** The loop goes past its turn `i`: the critique asks for a revision; the revision validated
      and was not the last one allowed. */
  predicate GoesOn(m: Genome, g: Gateway, i: nat) {
    if i % 2 == 0 then WantsRevision(m, g, i / 2)
    else ProposalUnder(m, g, ReviseRound(i / 2)).Some? && i / 2 + 1 < MAX_CRITIQUE_REVISIONS
  }

  ghost predicate LoopSteps(m: Genome, g: Gateway, steps: seq<StepNote>) {
    && steps != []
    && (forall i :: 0 <= i < |steps| ==> steps[i].key == LoopKey(i))
    && (forall i :: 0 <= i < |steps| - 1 ==> GoesOn(m, g, i))
    && !GoesOn(m, g, |steps| - 1)
  }

  /** The steps are those the genome's structure calls for, each one truly noted. */
  ghost predicate StepsAreTrue(m: Genome, g: Gateway, steps: seq<StepNote>) {
    if m.structure == SelfCritiqueLoop && !m.graphInstalled then steps == [StepNote(Critique(0), false, false)]
    else
      && (forall i :: 0 <= i < |steps| ==> NoteIsTrue(m, g, steps[i]))
      && match m.structure
         case SinglePass => steps == []
         case IterativeRefinement => |steps| == 1 && steps[0].key == ReviseOnce
         case ParallelReview =>
           && 1 <= |steps| <= 2 && steps[0].key == SecondDraft && (|steps| == 2 ==> steps[1].key == Review)
           && (|steps| == 2 <==> ProposalUnder(m, g, SecondDraft).Some?)
         case SelfCritiqueLoop => LoopSteps(m, g, steps)
  }

  // ---- whose reply is recorded ------------------------------------------------------------

  predicate Replaces(note: StepNote) {
    Bears(note.key) && note.valid
  }

  ghost predicate AnyReplaces(steps: seq<StepNote>) {
    exists i :: 0 <= i < |steps| && Replaces(steps[i])
  }

  /** `note` is the last of the steps that bore a proposal. */
  ghost predicate LastToReplace(steps: seq<StepNote>, i: nat) {
    i < |steps| && Replaces(steps[i]) && forall j :: i < j < |steps| ==> !Replaces(steps[j])
  }

  /** The draft stands unless a step bore a proposal, and then the last such proposal does. */
  ghost predicate ProposalIsTheLast(m: Genome, g: Gateway, draft: Proposal, p: Proposal, steps: seq<StepNote>,
                                    revised: bool) {
    && (revised <==> AnyReplaces(steps))
    && (!revised ==> p == draft)
    && forall i: nat :: LastToReplace(steps, i) ==> Some(p) == ProposalUnder(m, g, steps[i].key)
  }

  /** Everything the recorded outcome says, read off the rows. */
  ghost predicate ReadsAs(m: Genome, g: Gateway, o: Outcome) {
    match o
    case RefusedStatus => true
    case RefusedFunds => true
    case CallFailed => Draft in g.rows && TextUnder(g, Draft).None?
    case Unparseable(repairCalled) =>
      && TextUnder(g, Draft).Some? && ProposalUnder(m, g, Draft).None? && ProposalUnder(m, g, Repair).None?
      && (repairCalled <==> Repair in g.rows)
    case Proposed(p, steps, revised) =>
      && TextUnder(g, Draft).Some?
      && var draft := if ProposalUnder(m, g, Draft).Some? then ProposalUnder(m, g, Draft)
                      else ProposalUnder(m, g, Repair);
         && draft.Some?
         && StepsAreTrue(m, g, steps)
         && ProposalIsTheLast(m, g, draft.value, p, steps, revised)
  }

  // ---- rows only accumulate, so what was read stays true -------------------------------------

  ghost predicate Grew(g: Gateway, g': Gateway) {
    forall k :: k in g.rows ==> k in g'.rows && g'.rows[k] == g.rows[k]
  }

  lemma ReadingsStay(m: Genome, g: Gateway, g': Gateway, key: StepKey)
    requires Grew(g, g') && key in g.rows
    ensures TextUnder(g', key) == TextUnder(g, key) && ProposalUnder(m, g', key) == ProposalUnder(m, g, key)
    ensures forall r :: key == Critique(r) ==> VerdictUnder(m, g', r) == VerdictUnder(m, g, r)
  {}

  lemma NoteStays(m: Genome, g: Gateway, g': Gateway, note: StepNote)
    requires Grew(g, g') && NoteIsTrue(m, g, note) && note.called
    ensures NoteIsTrue(m, g', note)
  {
    ReadingsStay(m, g, g', note.key);
  }

  lemma CallReads(w: World, g: Gateway, key: StepKey, fuel: nat)
    ensures var r := GatewayCall(w, g, key, fuel);
            && Grew(g, r.0) && r.0.rows.Keys <= g.rows.Keys + {key}
            && (r.1.Done? ==>
                  && (r.1.value == NotAttempted <==> key !in r.0.rows)
                  && TextUnder(r.0, key) == if r.1.value.Text? then Some(r.1.value.text) else None)
  {}

  lemma StepReads<T>(m: Genome, w: World, g: Gateway, key: StepKey, fuel: nat, parse: string -> Option<T>)
    ensures var r := StepCall(w, g, key, fuel, parse);
            && Grew(g, r.0) && r.0.rows.Keys <= g.rows.Keys + {key}
            && (r.1.Done? ==>
                  var text := TextUnder(r.0, key);
                  && r.1.value.0 == (if text.Some? then parse(text.value) else None)
                  && r.1.value.1 == StepNote(key, key in r.0.rows, r.1.value.0.Some?))
  {
    CallReads(w, g, key, fuel);
  }

  // ---- the critique loop -------------------------------------------------------------------

  /** `round` revisions in: every turn so far was called, noted, and went on. */
  ghost predicate LoopSoFar(m: Genome, g: Gateway, draft: Proposal, current: Proposal, round: nat,
                            steps: seq<StepNote>) {
    && |steps| == 2 * round
    && (forall i :: 0 <= i < |steps| ==>
          steps[i].key == LoopKey(i) && steps[i].called && NoteIsTrue(m, g, steps[i]) && GoesOn(m, g, i))
    && Some(current) == if round == 0 then Some(draft) else ProposalUnder(m, g, ReviseRound(round - 1))
  }

  lemma TurnStays(m: Genome, g: Gateway, g': Gateway, i: nat)
    requires Grew(g, g') && LoopKey(i) in g.rows
    ensures GoesOn(m, g', i) == GoesOn(m, g, i)
  {
    ReadingsStay(m, g, g', LoopKey(i));
  }

  lemma SoFarStays(m: Genome, g: Gateway, g': Gateway, draft: Proposal, current: Proposal, round: nat,
                   steps: seq<StepNote>)
    requires LoopSoFar(m, g, draft, current, round, steps) && Grew(g, g')
    ensures LoopSoFar(m, g', draft, current, round, steps)
  {
    forall i | 0 <= i < |steps| ensures NoteIsTrue(m, g', steps[i]) && GoesOn(m, g', i) {
      NoteStays(m, g, g', steps[i]);
      TurnStays(m, g, g', i);
    }
    if round > 0 {
      assert steps[2 * round - 1].key == ReviseRound(round - 1);
      ReadingsStay(m, g, g', ReviseRound(round - 1));
    }
  }

  /** The loop's last proposal, when the steps after its last revision bore none. */
  lemma LoopKeepsTheLast(m: Genome, g: Gateway, draft: Proposal, current: Proposal, round: nat, steps: seq<StepNote>,
                         more: seq<StepNote>)
    requires LoopSoFar(m, g, draft, current, round, steps)
    requires forall i :: 0 <= i < |more| ==> !Replaces(more[i])
    ensures ProposalIsTheLast(m, g, draft, if round > 0 then current else draft, steps + more, round > 0)
  {
    var all := steps + more;
    if round > 0 {
      var last := 2 * round - 1;
      assert all[last] == steps[last] && LoopKey(last) == ReviseRound(round - 1) && NoteIsTrue(m, g, steps[last]);
      assert Replaces(all[last]);
      forall i: nat | LastToReplace(all, i) ensures i == last {}
    }
  }

  /** A round ends the loop with its steps told truly and its last revision kept, or goes on. */
  ghost predicate RoundIsTrue(m: Genome, g: Gateway, draft: Proposal, round: nat, r: Round) {
    match r
    case Stop(result) => LoopIsTrue(m, g, draft, result)
    case Again(current, steps) =>
      round + 1 < MAX_CRITIQUE_REVISIONS && LoopSoFar(m, g, draft, current, round + 1, steps)
  }

  ghost predicate LoopIsTrue(m: Genome, g: Gateway, draft: Proposal, r: LoopResult) {
    && LoopSteps(m, g, r.steps)
    && (forall i :: 0 <= i < |r.steps| ==> NoteIsTrue(m, g, r.steps[i]))
    && ProposalIsTheLast(m, g, draft, if r.final.Some? then r.final.value else draft, r.steps, r.final.Some?)
  }

  lemma CritiqueEnds(m: Genome, g: Gateway, draft: Proposal, current: Proposal, round: nat, steps: seq<StepNote>,
                     note: StepNote)
    requires LoopSoFar(m, g, draft, current, round, steps)
    requires note.key == Critique(round) && NoteIsTrue(m, g, note) && !WantsRevision(m, g, round)
    ensures LoopIsTrue(m, g, draft, LoopResult(if round > 0 then Some(current) else None, steps + [note]))
  {
    LoopKeepsTheLast(m, g, draft, current, round, steps, [note]);
    assert LoopKey(2 * round) == Critique(round) && !GoesOn(m, g, 2 * round);
  }

  lemma RevisionEnds(m: Genome, g: Gateway, draft: Proposal, current: Proposal, round: nat, steps: seq<StepNote>,
                     note: StepNote, note': StepNote)
    requires LoopSoFar(m, g, draft, current, round, steps)
    requires note.key == Critique(round) && NoteIsTrue(m, g, note) && WantsRevision(m, g, round)
    requires note'.key == ReviseRound(round) && NoteIsTrue(m, g, note') && !note'.valid
    ensures LoopIsTrue(m, g, draft, LoopResult(if round > 0 then Some(current) else None, steps + [note, note']))
  {
    LoopKeepsTheLast(m, g, draft, current, round, steps, [note, note']);
    assert LoopKey(2 * round) == Critique(round) && LoopKey(2 * round + 1) == ReviseRound(round);
  }

  lemma RevisionStands(m: Genome, g: Gateway, draft: Proposal, current: Proposal, round: nat, steps: seq<StepNote>,
                       note: StepNote, note': StepNote, revised: Proposal)
    requires LoopSoFar(m, g, draft, current, round, steps)
    requires note.key == Critique(round) && NoteIsTrue(m, g, note) && WantsRevision(m, g, round)
    requires note'.key == ReviseRound(round) && NoteIsTrue(m, g, note')
    requires ProposalUnder(m, g, ReviseRound(round)) == Some(revised)
    ensures if round + 1 < MAX_CRITIQUE_REVISIONS then
              LoopSoFar(m, g, draft, revised, round + 1, steps + [note, note'])
            else LoopIsTrue(m, g, draft, LoopResult(Some(revised), steps + [note, note']))
  {
    var all := steps + [note, note'];
    assert LoopKey(2 * round) == Critique(round) && LoopKey(2 * round + 1) == ReviseRound(round);
    if round + 1 >= MAX_CRITIQUE_REVISIONS {
      var last := 2 * round + 1;
      assert all[last] == note' && Replaces(all[last]);
      forall i: nat | LastToReplace(all, i) ensures i == last {}
    }
  }

  lemma RoundReads(m: Genome, w: World, g: Gateway, fuel: nat, draft: Proposal, current: Proposal, round: nat,
                   steps: seq<StepNote>)
    requires round < MAX_CRITIQUE_REVISIONS && LoopSoFar(m, g, draft, current, round, steps)
    ensures var r := CritiqueRound(m, w, g, fuel, current, round, steps);
            Grew(g, r.0) && (r.1.Done? ==> RoundIsTrue(m, r.0, draft, round, r.1.value))
  {
    StepReads(m, w, g, Critique(round), fuel, m.verdict);
    var first := StepCall(w, g, Critique(round), fuel, m.verdict);
    if first.1.Done? {
      var verdict, note := first.1.value.0, first.1.value.1;
      SoFarStays(m, g, first.0, draft, current, round, steps);
      if !(verdict.Some? && verdict.value.Revise?) {
        CritiqueEnds(m, first.0, draft, current, round, steps, note);
      } else {
        var key := ReviseRound(round);
        StepReads(m, w, first.0, key, first.1.fuel, Parser(m, key));
        var second := StepCall(w, first.0, key, first.1.fuel, Parser(m, key));
        if second.1.Done? {
          SoFarStays(m, first.0, second.0, draft, current, round, steps);
          NoteStays(m, first.0, second.0, note);
          ReadingsStay(m, first.0, second.0, Critique(round));
          var revised, note' := second.1.value.0, second.1.value.1;
          if revised.None? {
            RevisionEnds(m, second.0, draft, current, round, steps, note, note');
          } else {
            RevisionStands(m, second.0, draft, current, round, steps, note, note', revised.value);
          }
        }
      }
    }
  }

  lemma {:induction false} LoopReads(m: Genome, w: World, g: Gateway, fuel: nat, draft: Proposal, current: Proposal,
                                     round: nat, steps: seq<StepNote>)
    requires round < MAX_CRITIQUE_REVISIONS && LoopSoFar(m, g, draft, current, round, steps)
    ensures var r := Critiqued(m, w, g, fuel, current, round, steps);
            Grew(g, r.0) && (r.1.Done? ==> LoopIsTrue(m, r.0, draft, r.1.value))
    decreases MAX_CRITIQUE_REVISIONS - round
  {
    hide CritiqueRound, LoopSoFar, LoopIsTrue;
    RoundReads(m, w, g, fuel, draft, current, round, steps);
    var first := CritiqueRound(m, w, g, fuel, current, round, steps);
    if first.1.Done? && first.1.value.Again? {
      LoopReads(m, w, first.0, first.1.fuel, draft, first.1.value.current, round + 1, first.1.value.steps);
    }
  }

  // ---- the other structures, and the whole wake ----------------------------------------------

  ghost predicate WorkIsTrue(m: Genome, g: Gateway, draft: Proposal, o: Outcome) {
    o.Proposed? && StepsAreTrue(m, g, o.steps) && ProposalIsTheLast(m, g, draft, o.proposal, o.steps, o.revised)
  }

  lemma RefinementReads(m: Genome, w: World, g: Gateway, fuel: nat, draft: Proposal)
    requires m.structure == IterativeRefinement
    ensures var r := Worked(m, w, g, fuel, draft);
            Grew(g, r.0) && (r.1.Done? ==> WorkIsTrue(m, r.0, draft, r.1.value))
  {
    StepReads(m, w, g, ReviseOnce, fuel, Parser(m, ReviseOnce));
    var r := Worked(m, w, g, fuel, draft);
    if r.1.Done? {
      assert r.1.value.steps == [r.1.value.steps[0]];
      assert Replaces(r.1.value.steps[0]) <==> ProposalUnder(m, r.0, ReviseOnce).Some?;
    }
  }

  lemma ReviewReads(m: Genome, w: World, g: Gateway, fuel: nat, draft: Proposal)
    requires m.structure == ParallelReview
    ensures var r := Worked(m, w, g, fuel, draft);
            Grew(g, r.0) && (r.1.Done? ==> WorkIsTrue(m, r.0, draft, r.1.value))
  {
    hide StepCall, Refined, Critiqued;
    StepReads(m, w, g, SecondDraft, fuel, Parser(m, SecondDraft));
    var first := StepCall(w, g, SecondDraft, fuel, Parser(m, SecondDraft));
    var r := Worked(m, w, g, fuel, draft);
    if first.1.Done? {
      if first.1.value.0.Some? {
        StepReads(m, w, first.0, Review, first.1.fuel, Parser(m, Review));
        ReadingsStay(m, first.0, r.0, SecondDraft);
        if r.1.Done? {
          var steps := r.1.value.steps;
          assert steps == [first.1.value.1, steps[1]];
          NoteStays(m, first.0, r.0, steps[0]);
          assert Replaces(steps[1]) <==> ProposalUnder(m, r.0, Review).Some?;
        }
      } else {
        assert r.1.value.steps == [first.1.value.1];
      }
    }
  }

  lemma CritiqueReads(m: Genome, w: World, g: Gateway, fuel: nat, draft: Proposal)
    requires m.structure == SelfCritiqueLoop
    ensures var r := Worked(m, w, g, fuel, draft);
            Grew(g, r.0) && (r.1.Done? ==> WorkIsTrue(m, r.0, draft, r.1.value))
  {
    if m.graphInstalled {
      LoopReads(m, w, g, fuel, draft, draft, 0, []);
    }
  }

  lemma WorkReads(m: Genome, w: World, g: Gateway, fuel: nat, draft: Proposal)
    ensures var r := Worked(m, w, g, fuel, draft);
            Grew(g, r.0) && (r.1.Done? ==> WorkIsTrue(m, r.0, draft, r.1.value))
  {
    match m.structure
    case SinglePass =>
    case IterativeRefinement => RefinementReads(m, w, g, fuel, draft);
    case ParallelReview => ReviewReads(m, w, g, fuel, draft);
    case SelfCritiqueLoop => CritiqueReads(m, w, g, fuel, draft);
  }

  lemma GrewOn(g: Gateway, g1: Gateway, g2: Gateway)
    requires Grew(g, g1) && Grew(g1, g2)
    ensures Grew(g, g2)
  {}

  lemma RepairReads(m: Genome, w: World, g: Gateway, fuel: nat)
    requires TextUnder(g, Draft).Some? && ProposalUnder(m, g, Draft).None?
    ensures var r := Repaired(m, w, g, fuel);
            Grew(g, r.0) && (r.1.Done? ==> ReadsAs(m, r.0, r.1.value))
  {
    StepReads(m, w, g, Repair, fuel, Parser(m, Repair));
    var first := StepCall(w, g, Repair, fuel, Parser(m, Repair));
    ReadingsStay(m, g, first.0, Draft);
    if first.1.Done? && first.1.value.0.Some? {
      var p := first.1.value.0.value;
      WorkReads(m, w, first.0, first.1.fuel, p);
      var rest := Worked(m, w, first.0, first.1.fuel, p);
      hide StepCall, Worked, StepsAreTrue, ProposalIsTheLast;
      GrewOn(g, first.0, rest.0);
      ReadingsStay(m, g, rest.0, Draft);
      ReadingsStay(m, first.0, rest.0, Repair);
    }
  }

  lemma ThoughtReads(m: Genome, w: World, g: Gateway, fuel: nat)
    ensures var r := Thought(m, w, g, fuel);
            Grew(g, r.0) && (r.1.Done? ==> ReadsAs(m, r.0, r.1.value))
  {
    CallReads(w, g, Draft, fuel);
    var first := GatewayCall(w, g, Draft, fuel);
    if first.1.Done? && first.1.value.Text? {
      var left := first.1.fuel;
      match m.parse(Draft, first.1.value.text)
      case Some(p) =>
        WorkReads(m, w, first.0, left, p);
        var rest := Worked(m, w, first.0, left, p);
        hide GatewayCall, Worked, StepsAreTrue, ProposalIsTheLast;
        GrewOn(g, first.0, rest.0);
        ReadingsStay(m, first.0, rest.0, Draft);
      case None =>
        RepairReads(m, w, first.0, left);
        GrewOn(g, first.0, Repaired(m, w, first.0, left).0);
    }
  }

  // ---- whole runs --------------------------------------------------------------------------

  ghost predicate RecordReads(m: Genome, st: Store) {
    forall o :: o in st.deliberations ==> ReadsAs(m, st.gateway, o)
  }

  /** What a wake records is what its rows say, under any crashes and redeliveries and whatever
      the world answers from one delivery to the next: each step the structure calls for is
      listed, called exactly if it has a row and valid exactly if its reply was of use; the
      record says revised exactly if some step bore a proposal, and then the proposal is the
      reply under the last such step; otherwise it is the draft's, or the repair's where the
      draft did not parse. */
  lemma {:induction false} RecordIsReadOffTheRows(m: Genome, st: Store, schedule: seq<Delivery>)
    requires RecordReads(m, st)
    ensures RecordReads(m, Deliver(m, st, schedule))
    decreases |schedule|
  {
    if schedule == [] {
    } else {
      var d := schedule[0];
      var st' := Attempt(m, d.world, st, d.fuel);
      ThoughtReads(m, d.world, st.gateway, d.fuel);
      assert RecordReads(m, st');
      RecordIsReadOffTheRows(m, st', schedule[1..]);
    }
  }

  // ---- the rows leave no choice -----------------------------------------------------------------

  lemma SameLoopSteps(m: Genome, g: Gateway, a: seq<StepNote>, b: seq<StepNote>)
    requires LoopSteps(m, g, a) && LoopSteps(m, g, b)
    ensures |a| == |b|
  {
    if |a| < |b| {
      assert false;
    } else if |b| < |a| {
      assert false;
    }
  }

  lemma SameSteps(m: Genome, g: Gateway, a: seq<StepNote>, b: seq<StepNote>)
    requires StepsAreTrue(m, g, a) && StepsAreTrue(m, g, b)
    ensures a == b
  {
    if m.structure == SelfCritiqueLoop && m.graphInstalled {
      SameLoopSteps(m, g, a, b);
    }
    forall i | 0 <= i < |a| && |a| == |b| ensures a[i] == b[i] {}
  }

  lemma {:induction false} LastExists(steps: seq<StepNote>) returns (i: nat)
    requires AnyReplaces(steps)
    ensures LastToReplace(steps, i)
    decreases |steps|
  {
    var n := |steps| - 1;
    if Replaces(steps[n]) {
      i := n;
    } else {
      assert AnyReplaces(steps[..n]) by {
        var k :| 0 <= k < |steps| && Replaces(steps[k]);
        assert steps[..n][k] == steps[k];
      }
      i := LastExists(steps[..n]);
    }
  }

  lemma SameProposal(m: Genome, g: Gateway, draft: Proposal, p: Proposal, p': Proposal, steps: seq<StepNote>,
                     revised: bool, revised': bool)
    requires ProposalIsTheLast(m, g, draft, p, steps, revised) && ProposalIsTheLast(m, g, draft, p', steps, revised')
    ensures p == p' && revised == revised'
  {
    if AnyReplaces(steps) {
      var i := LastExists(steps);
    }
  }

  /** That reading leaves nothing open: of two outcomes that read as the same rows, neither a
      refusal, there is only one. */
  lemma RowsDetermineTheRecord(m: Genome, g: Gateway, a: Outcome, b: Outcome)
    requires ReadsAs(m, g, a) && ReadsAs(m, g, b)
    requires !a.RefusedStatus? && !a.RefusedFunds? && !b.RefusedStatus? && !b.RefusedFunds?
    ensures a == b
  {
    if a.Proposed? && b.Proposed? {
      SameSteps(m, g, a.steps, b.steps);
      hide StepsAreTrue;
      var draft := if ProposalUnder(m, g, Draft).Some? then ProposalUnder(m, g, Draft) else ProposalUnder(m, g, Repair);
      SameProposal(m, g, draft.value, a.proposal, b.proposal, a.steps, a.revised, b.revised);
    }
  }

  /** A wake refuses to think exactly when its Cell may not, or has no funds, and then no call is
      made; the record says which. */
  lemma RefusalsAreExact(m: Genome, w: World, st: Store, fuel: nat)
    requires st.deliberations == [] && fuel > 0
    ensures var st' := Attempt(m, w, st, fuel);
            && (st'.deliberations == [RefusedStatus] <==> !w.mayDeliberate)
            && (st'.deliberations == [RefusedFunds] <==> w.mayDeliberate && !w.funded)
            && (!w.mayDeliberate || !w.funded ==> st'.gateway == st.gateway)
  {
    ThoughtRefusesNothing(m, w, st.gateway, fuel);
    hide Thought;
    var st' := Attempt(m, w, st, fuel);
    if w.mayDeliberate {
      forall o | o in st'.deliberations ensures o != RefusedStatus && (o == RefusedFunds ==> !w.funded) {}
      assert RefusedStatus in [RefusedStatus] && RefusedFunds in [RefusedFunds];
    } else {
      assert st'.deliberations == [RefusedStatus];
      assert st'.deliberations[0] != RefusedFunds;
    }
  }

  lemma ThoughtRefusesNothing(m: Genome, w: World, g: Gateway, fuel: nat)
    ensures var r := Thought(m, w, g, fuel); r.1.Done? ==> !r.1.value.RefusedStatus? && !r.1.value.RefusedFunds?
  {
    hide StepCall, GatewayCall, Critiqued, Reviewed, Refined;
  }
}
