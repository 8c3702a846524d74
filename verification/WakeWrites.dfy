/**
 A wake's durable writes, counted: a delivery that dies has made exactly as many as it was given,
 and one that comes back has lost none.
 */
module WakeWrites {
  import opened Basics
  import opened Wake

  ghost function Answered(g: Gateway): set<StepKey> {
    set key | key in g.rows && g.rows[key] != Reserved
  }

  /** A row is written, the provider is asked, and its reply is written. */
  ghost function CallWrites(g: Gateway): nat {
    |g.rows| + |g.served| + |Answered(g)|
  }

  /** And then the deliberation and the mark. */
  ghost function Writes(st: Store): nat {
    CallWrites(st.gateway) + |st.deliberations| + if st.event == Processed then 1 else 0
  }

  /** Dead with nothing left to write, or back with what is left. Nothing raises. */
  ghost predicate Spends<T>(g: Gateway, g': Gateway, fuel: nat, s: Signal<T>) {
    match s
    case Crash => CallWrites(g') == CallWrites(g) + fuel
    case Raise => false
    case Done(left, _) => left <= fuel && CallWrites(g') == CallWrites(g) + fuel - left
  }

  lemma AnsweringAdds(g: Gateway, key: StepKey, row: Row)
    requires key !in g.rows && row != Reserved
    ensures var reserved := g.(rows := g.rows[key := Reserved]);
            && |reserved.rows| == |g.rows| + 1 && Answered(reserved) == Answered(g)
            && |reserved.rows[key := row]| == |g.rows| + 1
            && Answered(reserved.(rows := reserved.rows[key := row])) == Answered(g) + {key}
  {
    var reserved := g.rows[key := Reserved];
    assert reserved.Keys == g.rows.Keys + {key} && reserved[key := row].Keys == g.rows.Keys + {key};
  }

  lemma CallSpends(w: World, g: Gateway, key: StepKey, fuel: nat)
    ensures var (g', s) := GatewayCall(w, g, key, fuel); Spends(g, g', fuel, s)
  {
    if key !in g.rows && !w.answer(key).Refuses? {
      AnsweringAdds(g, key, Settled(w.answer(key)));
      hide Answered;
    }
  }

  lemma StepSpends<T>(w: World, g: Gateway, key: StepKey, fuel: nat, parse: string -> Option<T>)
    ensures var (g', s) := StepCall(w, g, key, fuel, parse); Spends(g, g', fuel, s)
  {
    CallSpends(w, g, key, fuel);
    hide GatewayCall, CallWrites, Classified;
  }

  lemma TwoStepsSpend(m: Genome, w: World, g: Gateway, fuel: nat)
    ensures var (g', s) := Refined(m, w, g, fuel); Spends(g, g', fuel, s)
    ensures var (g', s) := Reviewed(m, w, g, fuel); Spends(g, g', fuel, s)
  {
    StepSpends(w, g, ReviseOnce, fuel, Parser(m, ReviseOnce));
    StepSpends(w, g, SecondDraft, fuel, Parser(m, SecondDraft));
    var (g', s) := StepCall(w, g, SecondDraft, fuel, Parser(m, SecondDraft));
    if s.Done? { StepSpends(w, g', Review, s.fuel, Parser(m, Review)); }
    hide StepCall, CallWrites, Parser;
  }

  lemma RoundSpends(m: Genome, w: World, g: Gateway, fuel: nat, current: Proposal, round: nat, steps: seq<StepNote>)
    ensures var (g', s) := CritiqueRound(m, w, g, fuel, current, round, steps); Spends(g, g', fuel, s)
  {
    StepSpends(w, g, Critique(round), fuel, m.verdict);
    var (g', s) := StepCall(w, g, Critique(round), fuel, m.verdict);
    if s.Done? { StepSpends(w, g', ReviseRound(round), s.fuel, Parser(m, ReviseRound(round))); }
    hide StepCall, CallWrites, Parser, AfterRevision, LoopEnd;
  }

  lemma {:induction false} LoopSpends(m: Genome, w: World, g: Gateway, fuel: nat, current: Proposal, round: nat,
                                      steps: seq<StepNote>)
    requires round < MAX_CRITIQUE_REVISIONS
    ensures var (g', s) := Critiqued(m, w, g, fuel, current, round, steps); Spends(g, g', fuel, s)
    decreases MAX_CRITIQUE_REVISIONS - round
  {
    RoundSpends(m, w, g, fuel, current, round, steps);
    var (g', s) := CritiqueRound(m, w, g, fuel, current, round, steps);
    if s.Done? && s.value.Again? && round + 1 < MAX_CRITIQUE_REVISIONS {
      LoopSpends(m, w, g', s.fuel, s.value.current, round + 1, s.value.steps);
    }
    hide CritiqueRound, CallWrites, LoopEnd;
  }

  lemma WorkSpends(m: Genome, w: World, g: Gateway, fuel: nat, draft: Proposal)
    ensures var (g', s) := Worked(m, w, g, fuel, draft); Spends(g, g', fuel, s)
  {
    hide Refined, Reviewed, Critiqued, CallWrites, Kept;
    match m.structure
    case SinglePass =>
    case IterativeRefinement => TwoStepsSpend(m, w, g, fuel);
    case ParallelReview => TwoStepsSpend(m, w, g, fuel);
    case SelfCritiqueLoop => if m.graphInstalled { LoopSpends(m, w, g, fuel, draft, 0, []); }
  }

  lemma RepairSpends(m: Genome, w: World, g: Gateway, fuel: nat)
    ensures var (g', s) := Repaired(m, w, g, fuel); Spends(g, g', fuel, s)
  {
    StepSpends(w, g, Repair, fuel, Parser(m, Repair));
    var (g', s) := StepCall(w, g, Repair, fuel, Parser(m, Repair));
    if s.Done? && s.value.0.Some? { WorkSpends(m, w, g', s.fuel, s.value.0.value); }
    hide StepCall, Worked, CallWrites, Parser;
  }

  /** The gateway declines to reserve the first call. */
  predicate Declined(w: World, g: Gateway) {
    Draft !in g.rows && w.answer(Draft).Refuses?
  }

  lemma ThoughtSpends(m: Genome, w: World, g: Gateway, fuel: nat)
    ensures var (g', s) := Thought(m, w, g, fuel);
            if Declined(w, g) then g' == g && s == Raise else Spends(g, g', fuel, s)
  {
    CallSpends(w, g, Draft, fuel);
    var (g', s) := GatewayCall(w, g, Draft, fuel);
    if s.Done? && s.value.Text? {
      RepairSpends(m, w, g', s.fuel);
      var parsed := m.parse(Draft, s.value.text);
      if parsed.Some? { WorkSpends(m, w, g', s.fuel, parsed.value); }
    }
    hide Worked, Repaired, CallWrites;
  }

  /** A delivery that is given a number of writes makes exactly that many, and dies, unless it gets
      the event processed first, or the gateway declines its first call and nothing is written. */
  lemma DeliverySpends(m: Genome, w: World, st: Store, fuel: nat)
    ensures var st' := Attempt(m, w, st, fuel);
            && Writes(st) <= Writes(st') <= Writes(st) + fuel
            && (Writes(st') < Writes(st) + fuel ==>
                  || st'.event == Processed
                  || (st' == st && st.deliberations == [] && Declined(w, st.gateway)))
  {
    if st.deliberations == [] && w.mayDeliberate && w.funded { ThoughtSpends(m, w, st.gateway, fuel); }
    hide Thought, CallWrites, Declined;
  }
}
