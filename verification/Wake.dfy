/**
 One wake of one Cell: assemble, call the model under idempotency keys, record one
 deliberation, mark the event processed (src/mitosis/deliberation.py).

 A delivery may crash between any two durable writes. `fuel` is the number of durable
 writes left before the process dies, so a schedule of crashes and redeliveries is a
 sequence of fuels, and every crash point of the source is some value of `fuel`.
 */
module Wake {
  import opened Basics

  const MAX_PARSE_REPAIR_ATTEMPTS: nat := 1
  const MAX_CRITIQUE_REVISIONS: nat := 2

  type Proposal = string

  datatype Verdict = Keep | Revise(issues: seq<string>)

  datatype Structure = SinglePass | IterativeRefinement | ParallelReview | SelfCritiqueLoop

  /** The suffix of an idempotency key; the prefix is the wake key. */
  datatype StepKey =
    | Draft
    | Repair
    | ReviseOnce
    | SecondDraft
    | Review
    | Critique(round: nat)
    | ReviseRound(round: nat)

  /** A `model_calls` row: `reserved`, `succeeded`, or one of the failed statuses. */
  datatype Row = Reserved | Succeeded(reply: string) | Failed

  /** What the first call under a key would meet: the gateway declines to reserve, the
      provider fails, or the provider replies. */
  datatype Answer = Refuses | Fails | Replies(text: string)

  /** What a caller of the gateway sees. */
  datatype Reply = NotAttempted | NoReply | Text(text: string)

  /** `served` counts how often the provider was really asked under each key. */
  datatype Gateway = Gateway(rows: map<StepKey, Row>, served: multiset<StepKey>)

  /** The Cell's genome policy and the parsers, fixed for the life of the wake. */
  datatype Genome = Genome(
    structure: Structure,
    graphInstalled: bool,
    parse: (StepKey, string) -> Option<Proposal>,
    verdict: string -> Option<Verdict>)

  /** The outside as one delivery meets it. */
  datatype World = World(answer: StepKey -> Answer, mayDeliberate: bool, funded: bool)

  /** One entry of the workflow record: was a call made, and did its reply validate? */
  datatype StepNote = StepNote(key: StepKey, called: bool, valid: bool)

  datatype Outcome =
    | RefusedStatus
    | RefusedFunds
    | CallFailed
    | Unparseable(repairCalled: bool)
    | Proposed(proposal: Proposal, steps: seq<StepNote>, revised: bool)

  datatype EventStatus = Pending | Processed

  datatype Store = Store(gateway: Gateway, deliberations: seq<Outcome>, event: EventStatus)

  /** How a piece of a delivery ends: the process dies, an exception leaves the wake, or
      it returns with some fuel left. */
  datatype Signal<+T> = Crash | Raise | Done(fuel: nat, value: T)

  datatype LoopResult = LoopResult(final: Option<Proposal>, steps: seq<StepNote>)

  const NO_CALLS := Gateway(map[], multiset{})

  const FRESH := Store(NO_CALLS, [], Pending)

  // ---- the gateway -------------------------------------------------------------

  function RowReply(row: Row): Reply {
    match row
    case Succeeded(t) => Text(t)
    case Reserved => NoReply
    case Failed => NoReply
  }

  function Settled(a: Answer): Row {
    match a
    case Replies(t) => Succeeded(t)
    case Refuses => Failed
    case Fails => Failed
  }

  /** `gateway.call_model`: an existing row is returned as it stands; otherwise reserve,
      ask the provider, settle. Three durable points, so three places to die. */
  function GatewayCall(w: World, g: Gateway, key: StepKey, fuel: nat): (Gateway, Signal<Reply>) {
    if key in g.rows then
      (g, Done(fuel, RowReply(g.rows[key])))
    else if w.answer(key).Refuses? then
      (g, Done(fuel, NotAttempted))
    else if fuel == 0 then
      (g, Crash)
    else
      var reserved := g.(rows := g.rows[key := Reserved]);
      if fuel == 1 then (reserved, Crash)
      else
        var asked := reserved.(served := reserved.served + multiset{key});
        if fuel == 2 then (asked, Crash)
        else
          var row := Settled(w.answer(key));
          (asked.(rows := asked.rows[key := row]), Done(fuel - 3, RowReply(row)))
  }

  /** `_workflow_call`: every way of failing keeps the draft in hand. */
  function StepCall<T>(w: World, g: Gateway, key: StepKey, fuel: nat, parse: string -> Option<T>)
    : (Gateway, Signal<(Option<T>, StepNote)>)
  {
    match GatewayCall(w, g, key, fuel)
    case (g', Crash) => (g', Crash)
    case (g', Raise) => (g', Raise)
    case (g', Done(left, reply)) => (g', Done(left, Classified(key, reply, parse)))
  }

  function Classified<T>(key: StepKey, reply: Reply, parse: string -> Option<T>): (Option<T>, StepNote) {
    match reply
    case NotAttempted => (None, StepNote(key, false, false))
    case NoReply => (None, StepNote(key, true, false))
    case Text(t) => var parsed := parse(t); (parsed, StepNote(key, true, parsed.Some?))
  }

  function Parser(m: Genome, key: StepKey): string -> Option<Proposal> {
    t => m.parse(key, t)
  }

  // ---- the workflow structures ---------------------------------------------------

  /** `_iterative_refinement`. */
  function Refined(m: Genome, w: World, g: Gateway, fuel: nat): (Gateway, Signal<LoopResult>) {
    match StepCall(w, g, ReviseOnce, fuel, Parser(m, ReviseOnce))
    case (g', Crash) => (g', Crash)
    case (g', Raise) => (g', Raise)
    case (g', Done(left, (parsed, note))) => (g', Done(left, LoopResult(parsed, [note])))
  }

  /** `_parallel_review`: no second draft, no review. */
  function Reviewed(m: Genome, w: World, g: Gateway, fuel: nat): (Gateway, Signal<LoopResult>) {
    match StepCall(w, g, SecondDraft, fuel, Parser(m, SecondDraft))
    case (g', Crash) => (g', Crash)
    case (g', Raise) => (g', Raise)
    case (g', Done(left, (None, note))) => (g', Done(left, LoopResult(None, [note])))
    case (g', Done(left, (Some(_), note))) =>
      match StepCall(w, g', Review, left, Parser(m, Review))
      case (g'', Crash) => (g'', Crash)
      case (g'', Raise) => (g'', Raise)
      case (g'', Done(left', (parsed, note'))) => (g'', Done(left', LoopResult(parsed, [note, note'])))
  }

  /** What a critique loop returns when it stops: the last revision, if there was one. */
  function LoopEnd(current: Proposal, round: nat, steps: seq<StepNote>): LoopResult {
    LoopResult(if round > 0 then Some(current) else None, steps)
  }

  /** One trip round the graph: stop, or go again with a revised proposal. */
  datatype Round = Stop(result: LoopResult) | Again(current: Proposal, steps: seq<StepNote>)

  /** The critique node and, if it asks for a revision, the revise node. The graph's `round`
      and `revisions` move together, so one number stands for both. */
  function CritiqueRound(m: Genome, w: World, g: Gateway, fuel: nat, current: Proposal, round: nat,
                         steps: seq<StepNote>)
    : (Gateway, Signal<Round>)
  {
    match StepCall(w, g, Critique(round), fuel, m.verdict)
    case (g', Crash) => (g', Crash)
    case (g', Raise) => (g', Raise)
    case (g', Done(left, (verdict, note))) =>
      if !(verdict.Some? && verdict.value.Revise?) then
        (g', Done(left, Stop(LoopEnd(current, round, steps + [note]))))
      else
        match StepCall(w, g', ReviseRound(round), left, Parser(m, ReviseRound(round)))
        case (g'', Crash) => (g'', Crash)
        case (g'', Raise) => (g'', Raise)
        case (g'', Done(left', (revised, note'))) =>
          (g'', Done(left', AfterRevision(current, round, steps + [note, note'], revised)))
  }

  /** A revision that did not validate stops the loop, and so does the revision cap. */
  function AfterRevision(current: Proposal, round: nat, steps: seq<StepNote>, revised: Option<Proposal>): Round {
    if revised.None? then Stop(LoopEnd(current, round, steps))
    else if round + 1 >= MAX_CRITIQUE_REVISIONS then Stop(LoopEnd(revised.value, round + 1, steps))
    else Again(revised.value, steps)
  }

  /** `workflow_graph.run_critique_loop` over `_self_critique_loop`'s two nodes. */
  function Critiqued(m: Genome, w: World, g: Gateway, fuel: nat, current: Proposal, round: nat, steps: seq<StepNote>)
    : (Gateway, Signal<LoopResult>)
    requires round < MAX_CRITIQUE_REVISIONS
    decreases MAX_CRITIQUE_REVISIONS - round
  {
    match CritiqueRound(m, w, g, fuel, current, round, steps)
    case (g', Crash) => (g', Crash)
    case (g', Raise) => (g', Raise)
    case (g', Done(left, Stop(r))) => (g', Done(left, r))
    case (g', Done(left, Again(revised, steps'))) =>
      if round + 1 >= MAX_CRITIQUE_REVISIONS then (g', Done(left, LoopEnd(revised, round + 1, steps')))
      else Critiqued(m, w, g', left, revised, round + 1, steps')
  }

  /** `_run_workflow` over a draft that validated. */
  function Worked(m: Genome, w: World, g: Gateway, fuel: nat, draft: Proposal): (Gateway, Signal<Outcome>) {
    var (g', s) :=
      match m.structure
      case SinglePass => (g, Done(fuel, LoopResult(None, [])))
      case IterativeRefinement => Refined(m, w, g, fuel)
      case ParallelReview => Reviewed(m, w, g, fuel)
      case SelfCritiqueLoop =>
        if m.graphInstalled then Critiqued(m, w, g, fuel, draft, 0, [])
        else (g, Done(fuel, LoopResult(None, [StepNote(Critique(0), false, false)])));
    match s
    case Crash => (g', Crash)
    case Raise => (g', Raise)
    case Done(left, r) => (g', Done(left, Kept(draft, r)))
  }

  /** The draft is the floor: it stands unless a later step produced a valid proposal. */
  function Kept(draft: Proposal, r: LoopResult): Outcome {
    Proposed(if r.final.Some? then r.final.value else draft, r.steps, r.final.Some?)
  }

  /** `_attempt_parse_repair` and what follows: one bounded second call, never a third. */
  function Repaired(m: Genome, w: World, g: Gateway, fuel: nat): (Gateway, Signal<Outcome>) {
    match StepCall(w, g, Repair, fuel, Parser(m, Repair))
    case (g', Crash) => (g', Crash)
    case (g', Raise) => (g', Raise)
    case (g', Done(left, (None, note))) => (g', Done(left, Unparseable(note.called)))
    case (g', Done(left, (Some(p), _))) => Worked(m, w, g', left, p)
  }

  /** `_deliberate` from the first gateway call to the outcome it will record. */
  function Thought(m: Genome, w: World, g: Gateway, fuel: nat): (Gateway, Signal<Outcome>) {
    match GatewayCall(w, g, Draft, fuel)
    case (g', Crash) => (g', Crash)
    case (g', Raise) => (g', Raise)
    case (g', Done(left, NotAttempted)) => (g', Raise)
    case (g', Done(left, NoReply)) => (g', Done(left, CallFailed))
    case (g', Done(left, Text(t))) =>
      match m.parse(Draft, t)
      case Some(p) => Worked(m, w, g', left, p)
      case None => Repaired(m, w, g', left)
  }

  // ---- one delivery, and a schedule of deliveries --------------------------------

  /** `events.process_event` with the empty handler. */
  function Marked(st: Store, fuel: nat): Store {
    if st.event == Processed || fuel == 0 then st else st.(event := Processed)
  }

  /** The recording transaction, then the mark. */
  function Recorded(st: Store, o: Outcome, fuel: nat): Store {
    if fuel == 0 then st
    else Marked(st.(deliberations := st.deliberations + [o]), fuel - 1)
  }

  /** `run_wake_event`: deliver the wake once, with `fuel` durable writes before a crash. */
  function Attempt(m: Genome, w: World, st: Store, fuel: nat): Store {
    if st.deliberations != [] then Marked(st, fuel)
    else if !w.mayDeliberate then Recorded(st, RefusedStatus, fuel)
    else if !w.funded then Recorded(st, RefusedFunds, fuel)
    else
      match Thought(m, w, st.gateway, fuel)
      case (g, Crash) => st.(gateway := g)
      case (g, Raise) => st.(gateway := g)
      case (g, Done(left, o)) => Recorded(st.(gateway := g), o, left)
  }

  datatype Delivery = Delivery(world: World, fuel: nat)

  /** Any schedule: the event is delivered again after every crash, or spuriously. */
  function Deliver(m: Genome, st: Store, schedule: seq<Delivery>): Store
    decreases |schedule|
  {
    if schedule == [] then st
    else Deliver(m, Attempt(m, schedule[0].world, st, schedule[0].fuel), schedule[1..])
  }

  // ---- the reference: what a wake decides when nothing ever crashes ----------------

  datatype Decision = Raises | Records(outcome: Outcome)

  /** The reply a key gives, now and for ever: its row if there is one, else the world's. */
  function Ask(w: World, g: Gateway, key: StepKey): Reply {
    if key in g.rows then RowReply(g.rows[key])
    else
      match w.answer(key)
      case Refuses => NotAttempted
      case Fails => NoReply
      case Replies(t) => Text(t)
  }

  function DecideStep(m: Genome, w: World, g: Gateway, key: StepKey): (Option<Proposal>, StepNote) {
    Classified(key, Ask(w, g, key), Parser(m, key))
  }

  function DecideRound(m: Genome, w: World, g: Gateway, current: Proposal, round: nat, steps: seq<StepNote>): Round {
    var (verdict, note) := Classified(Critique(round), Ask(w, g, Critique(round)), m.verdict);
    if !(verdict.Some? && verdict.value.Revise?) then Stop(LoopEnd(current, round, steps + [note]))
    else
      var (revised, note') := DecideStep(m, w, g, ReviseRound(round));
      AfterRevision(current, round, steps + [note, note'], revised)
  }

  function DecideLoop(m: Genome, w: World, g: Gateway, current: Proposal, round: nat, steps: seq<StepNote>): LoopResult
    requires round < MAX_CRITIQUE_REVISIONS
    decreases MAX_CRITIQUE_REVISIONS - round
  {
    match DecideRound(m, w, g, current, round, steps)
    case Stop(r) => r
    case Again(revised, steps') =>
      if round + 1 >= MAX_CRITIQUE_REVISIONS then LoopEnd(revised, round + 1, steps')
      else DecideLoop(m, w, g, revised, round + 1, steps')
  }

  function DecideWorkflow(m: Genome, w: World, g: Gateway, draft: Proposal): Outcome {
    Kept(draft,
         match m.structure
         case SinglePass => LoopResult(None, [])
         case IterativeRefinement =>
           var (p, note) := DecideStep(m, w, g, ReviseOnce); LoopResult(p, [note])
         case ParallelReview =>
           var (d, note) := DecideStep(m, w, g, SecondDraft);
           if d.None? then LoopResult(None, [note])
           else var (p, note') := DecideStep(m, w, g, Review); LoopResult(p, [note, note'])
         case SelfCritiqueLoop =>
           if m.graphInstalled then DecideLoop(m, w, g, draft, 0, [])
           else LoopResult(None, [StepNote(Critique(0), false, false)]))
  }

  /** The decision as a function of the replies alone: no fuel, no rows written. */
  function Decide(m: Genome, w: World, g: Gateway): Decision {
    match Ask(w, g, Draft)
    case NotAttempted => Raises
    case NoReply => Records(CallFailed)
    case Text(t) =>
      match m.parse(Draft, t)
      case Some(p) => Records(DecideWorkflow(m, w, g, p))
      case None => Records(DecideRepair(m, w, g))
  }

  function DecideRepair(m: Genome, w: World, g: Gateway): Outcome {
    var (p, note) := DecideStep(m, w, g, Repair);
    if p.None? then Unparseable(note.called) else DecideWorkflow(m, w, g, p.value)
  }

  // ---- what every piece of a delivery keeps ----------------------------------------

  /** The keys a structure can ever call under. */
  function StepKeys(s: Structure): set<StepKey> {
    {Draft, Repair} +
    match s
    case SinglePass => {}
    case IterativeRefinement => {ReviseOnce}
    case ParallelReview => {SecondDraft, Review}
    case SelfCritiqueLoop => {Critique(0), ReviseRound(0), Critique(1), ReviseRound(1)}
  }

  function CallBound(s: Structure): nat {
    1 + MAX_PARSE_REPAIR_ATTEMPTS +
    match s
    case SinglePass => 0
    case IterativeRefinement => 1
    case ParallelReview => 2
    case SelfCritiqueLoop => 2 * MAX_CRITIQUE_REVISIONS
  }

  /** The provider is asked at most once per key and never without a row, and a row is settled
      only after it was asked. */
  ghost predicate BilledOnce(g: Gateway) {
    && (forall k :: g.served[k] <= (if k in g.rows then 1 else 0))
    && (forall k :: k in g.rows && !g.rows[k].Reserved? ==> g.served[k] == 1)
  }

  /** Every settled row holds what the world answered; a reserved one was accepted. */
  ghost predicate Honest(w: World, g: Gateway) {
    forall k :: k in g.rows ==>
      match g.rows[k]
      case Reserved => !w.answer(k).Refuses?
      case Succeeded(t) => w.answer(k) == Replies(t)
      case Failed => w.answer(k) == Fails
  }

  /** The calls whose process died between the reservation and the settlement. */
  function Lost(g: Gateway): set<StepKey> {
    set k | k in g.rows && g.rows[k].Reserved?
  }

  /** Two stores, possibly under two worlds, that give every key the same reply. */
  ghost predicate Agree(w: World, g: Gateway, w': World, g': Gateway) {
    forall k :: Ask(w', g', k) == Ask(w, g, k)
  }

  /** Every key the structure calls under is one of `keys`. Kept abstract in the proofs. */
  ghost predicate Covers(keys: set<StepKey>, s: Structure) {
    && Draft in keys && Repair in keys
    && (s == IterativeRefinement ==> ReviseOnce in keys)
    && (s == ParallelReview ==> SecondDraft in keys && Review in keys)
    && (s == SelfCritiqueLoop ==>
          forall r: nat :: r < MAX_CRITIQUE_REVISIONS ==> Critique(r) in keys && ReviseRound(r) in keys)
  }

  /** Rows are only added, under the allowed keys, and stay honest and billed once. */
  ghost predicate Lawful(keys: set<StepKey>, w: World, g: Gateway, g': Gateway) {
    && g.rows.Keys <= g'.rows.Keys
    && (forall k :: k in g.rows ==> g'.rows[k] == g.rows[k])
    && (g.rows.Keys <= keys ==> g'.rows.Keys <= keys)
    && (BilledOnce(g) ==> BilledOnce(g'))
    && (Honest(w, g) ==> Honest(w, g'))
  }

  /** Every new row costs three writes; a piece that returns loses no call. */
  ghost predicate Accounted<T>(g: Gateway, fuel: nat, r: (Gateway, Signal<T>)) {
    match r.1
    case Crash => fuel <= 3 * (|r.0.rows| - |g.rows|)
    case Raise => r.0 == g
    case Done(left, _) => Lost(r.0) == Lost(g) && fuel - left == 3 * (|r.0.rows| - |g.rows|)
  }

  /** All of the above about one piece of a delivery. */
  ghost predicate Sound<T>(keys: set<StepKey>, w: World, g: Gateway, fuel: nat, r: (Gateway, Signal<T>)) {
    Lawful(keys, w, g, r.0) && Accounted(g, fuel, r) && (r.1.Done? ==> Agree(w, g, w, r.0))
  }

  lemma Chain<T, U>(keys: set<StepKey>, w: World, g: Gateway, fuel: nat, r: (Gateway, Signal<T>),
                    r': (Gateway, Signal<U>))
    requires Sound(keys, w, g, fuel, r) && r.1.Done?
    requires Sound(keys, w, r.0, r.1.fuel, r') && !r'.1.Raise?
    ensures Sound(keys, w, g, fuel, r')
  {}

  /** The three places a fresh call can leave the store in. */
  lemma NewRowKeeps(keys: set<StepKey>, w: World, g: Gateway, key: StepKey, row: Row, asked: bool)
    requires key in keys && key !in g.rows && !w.answer(key).Refuses?
    requires row == Reserved || (asked && row == Settled(w.answer(key)))
    ensures Lawful(keys, w, g, Gateway(g.rows[key := row], if asked then g.served + multiset{key} else g.served))
  {}

  lemma SettledLosesNothing(w: World, g: Gateway, key: StepKey, served: multiset<StepKey>)
    requires key !in g.rows && !w.answer(key).Refuses?
    ensures var g' := Gateway(g.rows[key := Settled(w.answer(key))], served);
            Lost(g') == Lost(g) && Agree(w, g, w, g')
  {
    var row := Settled(w.answer(key));
    forall k ensures k in Lost(Gateway(g.rows[key := row], served)) <==> k in Lost(g) {}
  }

  lemma GatewayCallKeeps(keys: set<StepKey>, w: World, g: Gateway, key: StepKey, fuel: nat)
    requires key in keys
    ensures var r := GatewayCall(w, g, key, fuel);
            && Sound(keys, w, g, fuel, r) && !r.1.Raise?
            && (r.1.Done? ==> r.1.value == Ask(w, g, key))
  {
    if key !in g.rows && !w.answer(key).Refuses? && fuel > 0 {
      var row := if fuel <= 2 then Reserved else Settled(w.answer(key));
      NewRowKeeps(keys, w, g, key, row, fuel >= 2);
      var asked := g.served + multiset{key};
      if fuel > 2 {
        SettledLosesNothing(w, g, key, asked);
        assert g.rows[key := Reserved][key := row] == g.rows[key := row];
      }
      assert GatewayCall(w, g, key, fuel).0 == Gateway(g.rows[key := row], if fuel >= 2 then asked else g.served);
    }
  }

  lemma StepCallKeeps<T>(keys: set<StepKey>, w: World, g: Gateway, key: StepKey, fuel: nat, parse: string -> Option<T>)
    requires key in keys
    ensures var r := StepCall(w, g, key, fuel, parse);
            && Sound(keys, w, g, fuel, r) && !r.1.Raise?
            && (r.1.Done? ==> r.1.value == Classified(key, Ask(w, g, key), parse))
  {
    GatewayCallKeeps(keys, w, g, key, fuel);
  }

  lemma CritiqueRoundKeeps(
    keys: set<StepKey>, m: Genome, w: World, g: Gateway, fuel: nat, current: Proposal, round: nat, steps: seq<StepNote>)
    requires round < MAX_CRITIQUE_REVISIONS && m.structure == SelfCritiqueLoop && Covers(keys, m.structure)
    ensures var r := CritiqueRound(m, w, g, fuel, current, round, steps);
            && Sound(keys, w, g, fuel, r) && !r.1.Raise?
            && (r.1.Done? ==> r.1.value == DecideRound(m, w, g, current, round, steps))
  {
    var key, key' := Critique(round), ReviseRound(round);
    StepCallKeeps(keys, w, g, key, fuel, m.verdict);
    var first := StepCall(w, g, key, fuel, m.verdict);
    if first.1.Done? && first.1.value.0.Some? && first.1.value.0.value.Revise? {
      StepCallKeeps(keys, w, first.0, key', first.1.fuel, Parser(m, key'));
      var second := StepCall(w, first.0, key', first.1.fuel, Parser(m, key'));
      Chain(keys, w, g, fuel, first, second);
    }
  }

  lemma {:induction false} CritiquedKeeps(
    keys: set<StepKey>, m: Genome, w: World, g: Gateway, fuel: nat, current: Proposal, round: nat, steps: seq<StepNote>)
    requires round < MAX_CRITIQUE_REVISIONS && m.structure == SelfCritiqueLoop && Covers(keys, m.structure)
    ensures var r := Critiqued(m, w, g, fuel, current, round, steps);
            && Sound(keys, w, g, fuel, r) && !r.1.Raise?
            && (r.1.Done? ==> r.1.value == DecideLoop(m, w, g, current, round, steps))
    decreases MAX_CRITIQUE_REVISIONS - round
  {
    CritiqueRoundKeeps(keys, m, w, g, fuel, current, round, steps);
    var first := CritiqueRound(m, w, g, fuel, current, round, steps);
    hide CritiqueRound, DecideRound, Lawful, Agree, Covers;
    if first.1.Done? && first.1.value.Again? && round + 1 < MAX_CRITIQUE_REVISIONS {
      var revised, steps' := first.1.value.current, first.1.value.steps;
      CritiquedKeeps(keys, m, w, first.0, first.1.fuel, revised, round + 1, steps');
      DecideLoopSame(m, w, g, w, first.0, revised, round + 1, steps');
      Chain(keys, w, g, fuel, first, Critiqued(m, w, first.0, first.1.fuel, revised, round + 1, steps'));
    }
  }

  /** A decision is a function of the replies. */
  lemma {:induction false} DecideLoopSame(
    m: Genome, w: World, g: Gateway, w': World, g': Gateway, current: Proposal, round: nat, steps: seq<StepNote>)
    requires round < MAX_CRITIQUE_REVISIONS && Agree(w, g, w', g')
    ensures DecideLoop(m, w, g, current, round, steps) == DecideLoop(m, w', g', current, round, steps)
    decreases MAX_CRITIQUE_REVISIONS - round
  {
    var r := DecideRound(m, w, g, current, round, steps);
    assert r == DecideRound(m, w', g', current, round, steps);
    if r.Again? && round + 1 < MAX_CRITIQUE_REVISIONS {
      DecideLoopSame(m, w, g, w', g', r.current, round + 1, r.steps);
    }
  }

  lemma DecideWorkflowSame(m: Genome, w: World, g: Gateway, w': World, g': Gateway, draft: Proposal)
    requires Agree(w, g, w', g')
    ensures DecideWorkflow(m, w, g, draft) == DecideWorkflow(m, w', g', draft)
  {
    if m.structure == SelfCritiqueLoop {
      DecideLoopSame(m, w, g, w', g', draft, 0, []);
    }
  }

  lemma DecideSame(m: Genome, w: World, g: Gateway, w': World, g': Gateway)
    requires Agree(w, g, w', g')
    ensures Decide(m, w, g) == Decide(m, w', g')
  {
    forall p { DecideWorkflowSame(m, w, g, w', g', p); }
    DecideRepairSame(m, w, g, w', g');
  }

  lemma DecideRepairSame(m: Genome, w: World, g: Gateway, w': World, g': Gateway)
    requires Agree(w, g, w', g')
    ensures DecideRepair(m, w, g) == DecideRepair(m, w', g')
  {
    forall p { DecideWorkflowSame(m, w, g, w', g', p); }
    assert DecideStep(m, w, g, Repair) == DecideStep(m, w', g', Repair);
  }

  lemma WorkedKeeps(keys: set<StepKey>, m: Genome, w: World, g: Gateway, fuel: nat, draft: Proposal)
    requires Covers(keys, m.structure)
    ensures var r := Worked(m, w, g, fuel, draft);
            && Sound(keys, w, g, fuel, r) && !r.1.Raise?
            && (r.1.Done? ==> r.1.value == DecideWorkflow(m, w, g, draft))
  {
    match m.structure
    case SinglePass =>
    case IterativeRefinement =>
      StepCallKeeps(keys, w, g, ReviseOnce, fuel, Parser(m, ReviseOnce));
    case ParallelReview =>
      StepCallKeeps(keys, w, g, SecondDraft, fuel, Parser(m, SecondDraft));
      var first := StepCall(w, g, SecondDraft, fuel, Parser(m, SecondDraft));
      if first.1.Done? && first.1.value.0.Some? {
        StepCallKeeps(keys, w, first.0, Review, first.1.fuel, Parser(m, Review));
        Chain(keys, w, g, fuel, first, StepCall(w, first.0, Review, first.1.fuel, Parser(m, Review)));
      }
    case SelfCritiqueLoop =>
      if m.graphInstalled {
        CritiquedKeeps(keys, m, w, g, fuel, draft, 0, []);
      }
  }

  /** From a first reply that did not parse: the one repair, then the workflow. */
  lemma RepairedKeeps(keys: set<StepKey>, m: Genome, w: World, g: Gateway, fuel: nat)
    requires Covers(keys, m.structure)
    ensures var r := Repaired(m, w, g, fuel);
            && Sound(keys, w, g, fuel, r) && !r.1.Raise?
            && (r.1.Done? ==> r.1.value == DecideRepair(m, w, g))
  {
    StepCallKeeps(keys, w, g, Repair, fuel, Parser(m, Repair));
    var first := StepCall(w, g, Repair, fuel, Parser(m, Repair));
    if first.1.Done? && first.1.value.0.Some? {
      var p := first.1.value.0.value;
      WorkedKeeps(keys, m, w, first.0, first.1.fuel, p);
      DecideWorkflowSame(m, w, g, w, first.0, p);
      Chain(keys, w, g, fuel, first, Worked(m, w, first.0, first.1.fuel, p));
    }
  }

  /** Running with crashes possible agrees with deciding from the replies. */
  lemma ThoughtKeeps(keys: set<StepKey>, m: Genome, w: World, g: Gateway, fuel: nat)
    requires Covers(keys, m.structure)
    ensures var r := Thought(m, w, g, fuel);
            && Sound(keys, w, g, fuel, r)
            && (r.1.Done? ==> Decide(m, w, g) == Records(r.1.value))
            && (r.1.Raise? ==> Decide(m, w, g) == Raises)
  {
    GatewayCallKeeps(keys, w, g, Draft, fuel);
    var first := GatewayCall(w, g, Draft, fuel);
    hide GatewayCall, Worked, Repaired, Lawful, Accounted;
    if first.1.Done? && first.1.value.Text? {
      var g1, left := first.0, first.1.fuel;
      match m.parse(Draft, first.1.value.text)
      case Some(p) =>
        WorkedKeeps(keys, m, w, g1, left, p);
        DecideWorkflowSame(m, w, g, w, g1, p);
        Chain(keys, w, g, fuel, first, Worked(m, w, g1, left, p));
      case None =>
        RepairedKeeps(keys, m, w, g1, left);
        DecideRepairSame(m, w, g, w, g1);
        Chain(keys, w, g, fuel, first, Repaired(m, w, g1, left));
    }
  }

  // ---- whole runs: any schedule of crashes and redeliveries ------------------------

  /** What holds of the store after every delivery, whatever the worlds and the crashes. */
  ghost predicate StoreOk(keys: set<StepKey>, st: Store) {
    && BilledOnce(st.gateway)
    && st.gateway.rows.Keys <= keys
    && |st.deliberations| <= 1
    && (st.event == Processed ==> |st.deliberations| == 1)
  }

  lemma AttemptKeepsOk(keys: set<StepKey>, m: Genome, w: World, st: Store, fuel: nat)
    requires Covers(keys, m.structure) && StoreOk(keys, st)
    ensures StoreOk(keys, Attempt(m, w, st, fuel))
  {
    ThoughtKeeps(keys, m, w, st.gateway, fuel);
  }

  lemma {:induction false} DeliverKeepsOk(keys: set<StepKey>, m: Genome, st: Store, schedule: seq<Delivery>)
    requires Covers(keys, m.structure) && StoreOk(keys, st)
    ensures StoreOk(keys, Deliver(m, st, schedule))
    decreases |schedule|
  {
    if schedule == [] {
    } else {
      AttemptKeepsOk(keys, m, schedule[0].world, st, schedule[0].fuel);
      DeliverKeepsOk(keys, m, Attempt(m, schedule[0].world, st, schedule[0].fuel), schedule[1..]);
    }
  }

  lemma {:induction false} ServedBound(served: multiset<StepKey>, keys: set<StepKey>)
    requires forall k :: served[k] <= (if k in keys then 1 else 0)
    ensures |served| <= |keys|
    decreases |keys|
  {
    if keys == {} {
      assert served == multiset{};
    } else {
      var k :| k in keys;
      ServedBound(served[k := 0], keys - {k});
      assert |served| <= |served[k := 0]| + 1;
    }
  }

  /** For every schedule of crashes and redeliveries, under worlds that may change between
      deliveries: one deliberation at most, each key billed at most once and each settled one
      exactly once, a processed event always has its deliberation, and the provider is asked no
      more often than the bound. */
  lemma OneWakeOneDeliberation(m: Genome, schedule: seq<Delivery>)
    ensures var st := Deliver(m, FRESH, schedule);
            && |st.deliberations| <= 1
            && (st.event == Processed ==> |st.deliberations| == 1)
            && (forall k :: st.gateway.served[k] <= 1)
            && (forall k :: k in st.gateway.rows && !st.gateway.rows[k].Reserved? ==> st.gateway.served[k] == 1)
            && |st.gateway.served| <= CallBound(m.structure)
            && CallBound(m.structure) <= 1 + MAX_PARSE_REPAIR_ATTEMPTS + 2 * MAX_CRITIQUE_REVISIONS
  {
    RunKeepsOk(StepKeys(m.structure), m, schedule);
    StepKeysBound(m.structure);
  }

  lemma RunKeepsOk(keys: set<StepKey>, m: Genome, schedule: seq<Delivery>)
    requires Covers(keys, m.structure)
    ensures var st := Deliver(m, FRESH, schedule);
            StoreOk(keys, st) && |st.gateway.served| <= |keys|
  {
    DeliverKeepsOk(keys, m, FRESH, schedule);
    ServedBound(Deliver(m, FRESH, schedule).gateway.served, keys);
  }

  lemma StepKeysBound(s: Structure)
    ensures Covers(StepKeys(s), s) && |StepKeys(s)| == CallBound(s)
  {
    if s == SelfCritiqueLoop {
      LoopKeysSize();
    }
  }

  lemma LoopKeysSize()
    ensures |StepKeys(SelfCritiqueLoop)| == 6
  {
    var k3 := {Draft, Repair, Critique(0)};
    var k4 := k3 + {ReviseRound(0)};
    var k5 := k4 + {Critique(1)};
    assert StepKeys(SelfCritiqueLoop) == k5 + {ReviseRound(1)};
  }

  /** Once recorded, no redelivery makes a call or changes the record. */
  lemma {:induction false} RecordedIsFinal(m: Genome, st: Store, schedule: seq<Delivery>)
    requires st.deliberations != []
    ensures var st' := Deliver(m, st, schedule);
            st'.gateway == st.gateway && st'.deliberations == st.deliberations
    decreases |schedule|
  {
    if schedule == [] {
    } else {
      RecordedIsFinal(m, Attempt(m, schedule[0].world, st, schedule[0].fuel), schedule[1..]);
    }
  }

  /** The Cell may deliberate throughout, and the world would answer each key the same way
      whenever it is first asked. */
  ghost predicate Steady(w: World, schedule: seq<Delivery>) {
    w.mayDeliberate && w.funded && forall i :: 0 <= i < |schedule| ==> schedule[i].world == w
  }

  ghost predicate Means(m: Genome, w: World, st: Store) {
    && Honest(w, st.gateway)
    && forall o :: o in st.deliberations ==> Decide(m, w, st.gateway) == Records(o)
  }

  /** What is recorded after any crashes is exactly what the wake decides from its rows,
      with every call lost in flight read as a provider that did not answer. */
  lemma {:induction false} RecordIsTheDecision(keys: set<StepKey>, m: Genome, w: World, st: Store,
                                               schedule: seq<Delivery>)
    requires Covers(keys, m.structure) && Steady(w, schedule) && Means(m, w, st)
    ensures Means(m, w, Deliver(m, st, schedule))
    decreases |schedule|
  {
    if schedule == [] {
    } else {
      var fuel := schedule[0].fuel;
      assert schedule[0].world == w;
      if st.deliberations == [] {
        ThoughtKeeps(keys, m, w, st.gateway, fuel);
        var r := Thought(m, w, st.gateway, fuel);
        if r.1.Done? {
          DecideSame(m, w, st.gateway, w, r.0);
        }
      }
      RecordIsTheDecision(keys, m, w, Attempt(m, w, st, fuel), schedule[1..]);
    }
  }

  /** Enough fuel for every call, the record and the mark. */
  function FullFuel(s: Structure): nat {
    3 * CallBound(s) + 2
  }

  /** A delivery that does not crash finishes the wake, from any state a run can reach,
      unless the gateway declines the first call. */
  lemma CrashFreeDeliveryFinishes(keys: set<StepKey>, m: Genome, w: World, st: Store, fuel: nat)
    requires Covers(keys, m.structure) && StoreOk(keys, st) && fuel >= 3 * |keys| + 2
    ensures var st' := Attempt(m, w, st, fuel);
            || (st'.event == Processed && |st'.deliberations| == 1)
            || (st' == st && st.deliberations == [] && Decide(m, w, st.gateway) == Raises)
  {
    ThoughtKeeps(keys, m, w, st.gateway, fuel);
    SubsetSize(Thought(m, w, st.gateway, fuel).0.rows.Keys, keys);
  }

  /** The decision a run recorded, and the rows it recorded it over. */
  lemma RunMeans(m: Genome, w: World, schedule: seq<Delivery>)
    requires Steady(w, schedule)
    requires Deliver(m, FRESH, schedule).deliberations != []
    ensures var st := Deliver(m, FRESH, schedule);
            && Honest(w, st.gateway)
            && |st.deliberations| == 1
            && Decide(m, w, st.gateway) == Records(st.deliberations[0])
  {
    StepKeysBound(m.structure);
    OneWakeOneDeliberation(m, schedule);
    RecordIsTheDecision(StepKeys(m.structure), m, w, FRESH, schedule);
    assert Deliver(m, FRESH, schedule).deliberations[0] in Deliver(m, FRESH, schedule).deliberations;
  }

  lemma CrashFreeRun(keys: set<StepKey>, m: Genome, w: World, fuel: nat)
    requires Covers(keys, m.structure) && fuel >= 3 * |keys| + 2 && w.mayDeliberate && w.funded
    requires Decide(m, w, NO_CALLS).Records?
    ensures Attempt(m, w, FRESH, fuel).deliberations == [Decide(m, w, NO_CALLS).outcome]
  {
    ThoughtKeeps(keys, m, w, NO_CALLS, fuel);
    SubsetSize(Thought(m, w, NO_CALLS, fuel).0.rows.Keys, keys);
  }

  /** A lost first call is the one that costs the wake its proposal: the recovered run says
      the provider failed exactly when it would have anyway or the first call was lost. */
  lemma LostDraftIsCallFailed(m: Genome, w: World, schedule: seq<Delivery>)
    requires Steady(w, schedule)
    requires Deliver(m, FRESH, schedule).deliberations != []
    ensures var st := Deliver(m, FRESH, schedule);
            st.deliberations == [CallFailed]
            <==> (Decide(m, w, NO_CALLS) == Records(CallFailed) || Draft in Lost(st.gateway))
  {
    var st := Deliver(m, FRESH, schedule);
    RunMeans(m, w, schedule);
    assert st.deliberations == [st.deliberations[0]];
    CallFailedIff(m, w, st.gateway);
    CallFailedIff(m, w, NO_CALLS);
  }

  lemma CallFailedIff(m: Genome, w: World, g: Gateway)
    ensures Decide(m, w, g) == Records(CallFailed) <==> Ask(w, g, Draft) == NoReply
  {}

  /** "The recovered run records the same proposal" is false of the code without that
      condition: die once between the reservation and the settlement, and redeliver. */
  lemma RecoveryCanDiffer()
    ensures exists m: Genome, w: World, schedule: seq<Delivery> ::
              && Steady(w, schedule)
              && Deliver(m, FRESH, schedule).deliberations == [CallFailed]
              && Attempt(m, w, FRESH, FullFuel(m.structure)).deliberations == [Proposed("p", [], false)]
  {
    var m := Genome(SinglePass, true, (_, t) => Some(t), _ => None);
    var w := World(_ => Replies("p"), true, true);
    var schedule := [Delivery(w, 1), Delivery(w, 2)];
    var lost := Gateway(map[Draft := Reserved], multiset{});
    var st1 := Attempt(m, w, FRESH, 1);
    assert st1 == Store(lost, [], Pending);
    var st2 := Attempt(m, w, st1, 2);
    assert st2 == Store(lost, [CallFailed], Processed);
    assert schedule[1..] == [Delivery(w, 2)] && schedule[1..][1..] == [];
    assert Deliver(m, st1, schedule[1..]) == Deliver(m, st2, []);
    assert Deliver(m, FRESH, schedule) == st2;
    assert Attempt(m, w, FRESH, FullFuel(SinglePass)).deliberations == [Proposed("p", [], false)];
    assert Steady(w, schedule);
  }

  /** The gateway never declines the first call of this wake. */
  ghost predicate DraftAccepted(schedule: seq<Delivery>) {
    forall i :: 0 <= i < |schedule| ==> !schedule[i].world.answer(Draft).Refuses?
  }

  /** What is left to do, counted in durable steps that cannot be undone. */
  function Remaining(keys: set<StepKey>, st: Store): int {
    (if st.deliberations == [] then |keys| - |st.gateway.rows| + 1 else 0)
    + (if st.event == Pending then 1 else 0)
  }

  lemma AttemptProgresses(keys: set<StepKey>, m: Genome, w: World, st: Store, fuel: nat)
    requires Covers(keys, m.structure) && StoreOk(keys, st) && fuel > 0 && !w.answer(Draft).Refuses?
    ensures st.event == Processed || Remaining(keys, Attempt(m, w, st, fuel)) < Remaining(keys, st)
  {
    ThoughtKeeps(keys, m, w, st.gateway, fuel);
    SubsetSize(st.gateway.rows.Keys, keys);
    if st.deliberations == [] && w.mayDeliberate && w.funded {
      SubsetSize(Thought(m, w, st.gateway, fuel).0.rows.Keys, keys);
    }
  }

  /** Crashes cannot loop for ever: if every delivery makes one durable write before it
      dies, the wake is processed within CallBound + 2 deliveries, wherever each one dies. */
  lemma {:induction false} CrashLoopsEnd(keys: set<StepKey>, m: Genome, st: Store, schedule: seq<Delivery>)
    requires Covers(keys, m.structure) && StoreOk(keys, st) && DraftAccepted(schedule)
    requires forall i :: 0 <= i < |schedule| ==> schedule[i].fuel > 0
    requires |schedule| >= Remaining(keys, st)
    ensures Deliver(m, st, schedule).event == Processed
    decreases |schedule|
  {
    SubsetSize(st.gateway.rows.Keys, keys);
    if schedule == [] {
    } else {
      var st' := Attempt(m, schedule[0].world, st, schedule[0].fuel);
      AttemptKeepsOk(keys, m, schedule[0].world, st, schedule[0].fuel);
      AttemptProgresses(keys, m, schedule[0].world, st, schedule[0].fuel);
      CrashLoopsEnd(keys, m, st', schedule[1..]);
    }
  }

  lemma CrashLoopBound(m: Genome, schedule: seq<Delivery>)
    requires DraftAccepted(schedule)
    requires forall i :: 0 <= i < |schedule| ==> schedule[i].fuel > 0
    requires |schedule| >= CallBound(m.structure) + 2
    ensures Deliver(m, FRESH, schedule).event == Processed
  {
    StepKeysBound(m.structure);
    CrashLoopsEnd(StepKeys(m.structure), m, FRESH, schedule);
  }

  // ---- the imperative form: steps that write rows -----------------------------------

  /**
   The worker and the rows it writes. Each method is the source's own sequence of steps;
   what it returns and the rows it leaves are those of the function its `ensures` names,
   which the lemmas above are about.
   */
  class WakeWorker {
    const genome: Genome
    var rows: map<StepKey, Row>
    var served: multiset<StepKey>
    var deliberations: seq<Outcome>
    var event: EventStatus

    constructor (m: Genome)
      ensures genome == m && State() == FRESH
    {
      genome := m;
      rows, served, deliberations, event := map[], multiset{}, [], Pending;
    }

    ghost function Calls(): Gateway
      reads this
    {
      Gateway(rows, served)
    }

    ghost function State(): Store
      reads this
    {
      Store(Calls(), deliberations, event)
    }

    method CallModel(w: World, key: StepKey, fuel: nat) returns (s: Signal<Reply>)
      modifies this`rows, this`served
      ensures (Calls(), s) == GatewayCall(w, old(Calls()), key, fuel)
    {
      if key in rows {
        return Done(fuel, RowReply(rows[key]));
      }
      if w.answer(key).Refuses? {
        return Done(fuel, NotAttempted);
      }
      if fuel == 0 {
        return Crash;
      }
      rows := rows[key := Reserved];
      if fuel == 1 {
        return Crash;
      }
      served := served + multiset{key};
      if fuel == 2 {
        return Crash;
      }
      var row := Settled(w.answer(key));
      rows := rows[key := row];
      return Done(fuel - 3, RowReply(row));
    }

    method WorkflowCall<T>(w: World, key: StepKey, fuel: nat, parse: string -> Option<T>)
      returns (s: Signal<(Option<T>, StepNote)>)
      modifies this`rows, this`served
      ensures (Calls(), s) == StepCall(w, old(Calls()), key, fuel, parse)
    {
      var reply := CallModel(w, key, fuel);
      match reply
      case Crash => s := Crash;
      case Raise => s := Raise;
      case Done(left, r) => s := Done(left, Classified(key, r, parse));
    }

    method RunIterativeRefinement(w: World, fuel: nat) returns (s: Signal<LoopResult>)
      modifies this`rows, this`served
      ensures (Calls(), s) == Refined(genome, w, old(Calls()), fuel)
    {
      var step := WorkflowCall(w, ReviseOnce, fuel, Parser(genome, ReviseOnce));
      match step
      case Crash => s := Crash;
      case Raise => s := Raise;
      case Done(left, (parsed, note)) => s := Done(left, LoopResult(parsed, [note]));
    }

    method RunParallelReview(w: World, fuel: nat) returns (s: Signal<LoopResult>)
      modifies this`rows, this`served
      ensures (Calls(), s) == Reviewed(genome, w, old(Calls()), fuel)
    {
      var second := WorkflowCall(w, SecondDraft, fuel, Parser(genome, SecondDraft));
      match second
      case Crash => return Crash;
      case Raise => return Raise;
      case Done(left, (parsed, note)) =>
        if parsed.None? {
          return Done(left, LoopResult(None, [note]));
        }
        var review := WorkflowCall(w, Review, left, Parser(genome, Review));
        match review
        case Crash => return Crash;
        case Raise => return Raise;
        case Done(left', (parsed', note')) => return Done(left', LoopResult(parsed', [note, note']));
    }

    method RunCritiqueRound(w: World, fuel: nat, current: Proposal, round: nat, steps: seq<StepNote>)
      returns (s: Signal<Round>)
      modifies this`rows, this`served
      ensures (Calls(), s) == CritiqueRound(genome, w, old(Calls()), fuel, current, round, steps)
    {
      var critique := WorkflowCall(w, Critique(round), fuel, genome.verdict);
      match critique
      case Crash => return Crash;
      case Raise => return Raise;
      case Done(left, (verdict, note)) =>
        if !(verdict.Some? && verdict.value.Revise?) {
          return Done(left, Stop(LoopEnd(current, round, steps + [note])));
        }
        var revise := WorkflowCall(w, ReviseRound(round), left, Parser(genome, ReviseRound(round)));
        match revise
        case Crash => return Crash;
        case Raise => return Raise;
        case Done(left', (revised, note')) =>
          return Done(left', AfterRevision(current, round, steps + [note, note'], revised));
    }

    /** The graph's loop: critique and revise until a verdict, a failure or the cap stops it. */
    method RunSelfCritiqueLoop(w: World, fuel: nat, draft: Proposal) returns (s: Signal<LoopResult>)
      modifies this`rows, this`served
      ensures (Calls(), s) == Critiqued(genome, w, old(Calls()), fuel, draft, 0, [])
    {
      hide CritiqueRound;
      var current, round, steps, left := draft, 0, [], fuel;
      while round < MAX_CRITIQUE_REVISIONS
        invariant round < MAX_CRITIQUE_REVISIONS
        invariant Critiqued(genome, w, Calls(), left, current, round, steps)
                  == Critiqued(genome, w, old(Calls()), fuel, draft, 0, [])
        decreases MAX_CRITIQUE_REVISIONS - round
      {
        var r := RunCritiqueRound(w, left, current, round, steps);
        match r
        case Crash => return Crash;
        case Raise => return Raise;
        case Done(left', Stop(result)) => return Done(left', result);
        case Done(left', Again(revised, steps')) =>
          if round + 1 >= MAX_CRITIQUE_REVISIONS {
            return Done(left', LoopEnd(revised, round + 1, steps'));
          }
          current, round, steps, left := revised, round + 1, steps', left';
      }
    }

    method RunWorkflow(w: World, fuel: nat, draft: Proposal) returns (s: Signal<Outcome>)
      modifies this`rows, this`served
      ensures (Calls(), s) == Worked(genome, w, old(Calls()), fuel, draft)
    {
      var run: Signal<LoopResult>;
      match genome.structure {
        case SinglePass => run := Done(fuel, LoopResult(None, []));
        case IterativeRefinement => run := RunIterativeRefinement(w, fuel);
        case ParallelReview => run := RunParallelReview(w, fuel);
        case SelfCritiqueLoop =>
          if genome.graphInstalled {
            run := RunSelfCritiqueLoop(w, fuel, draft);
          } else {
            run := Done(fuel, LoopResult(None, [StepNote(Critique(0), false, false)]));
          }
      }
      match run
      case Crash => s := Crash;
      case Raise => s := Raise;
      case Done(left, r) => s := Done(left, Kept(draft, r));
    }

    method AttemptParseRepair(w: World, fuel: nat) returns (s: Signal<Outcome>)
      modifies this`rows, this`served
      ensures (Calls(), s) == Repaired(genome, w, old(Calls()), fuel)
    {
      var repair := WorkflowCall(w, Repair, fuel, Parser(genome, Repair));
      match repair
      case Crash => s := Crash;
      case Raise => s := Raise;
      case Done(left, (parsed, note)) =>
        if parsed.None? {
          s := Done(left, Unparseable(note.called));
        } else {
          s := RunWorkflow(w, left, parsed.value);
        }
    }

    method Think(w: World, fuel: nat) returns (s: Signal<Outcome>)
      modifies this`rows, this`served
      ensures (Calls(), s) == Thought(genome, w, old(Calls()), fuel)
    {
      var call := CallModel(w, Draft, fuel);
      match call
      case Crash => s := Crash;
      case Raise => s := Raise;
      case Done(left, reply) =>
        if reply.NotAttempted? {
          return Raise;
        }
        if reply.NoReply? {
          return Done(left, CallFailed);
        }
        var parsed := genome.parse(Draft, reply.text);
        if parsed.Some? {
          s := RunWorkflow(w, left, parsed.value);
        } else {
          s := AttemptParseRepair(w, left);
        }
    }

    /** One delivery of the wake event. The new rows are exactly `Attempt`'s. */
    method RunWakeEvent(w: World, fuel: nat)
      modifies this
      ensures State() == Attempt(genome, w, old(State()), fuel)
    {
      var left := fuel;
      if deliberations == [] {
        var o: Outcome;
        if !w.mayDeliberate {
          o := RefusedStatus;
        } else if !w.funded {
          o := RefusedFunds;
        } else {
          var s := Think(w, fuel);
          if !s.Done? {
            return;
          }
          left, o := s.fuel, s.value;
        }
        if left == 0 {
          return;
        }
        deliberations := deliberations + [o];
        left := left - 1;
      }
      if event == Pending && left > 0 {
        event := Processed;
      }
    }
  }
}
