/**
 What the people behind the channels cost (src/mitosis/external_actions.py over
 src/mitosis/reservations.py): a claim holds a Cell's resource budget for a person's time,
 a completion pays for the minutes reported, an abandonment gives the hold back, and the
 sweeper marks the holds that nobody reported on in time.
 */
module Labour {
  import opened Basics
  import opened Channels
  import opened ChannelRuns

  const HUMAN_MINUTE_RESOURCE_COST := 10
  const RESERVATION_TTL := 28_800

  /** The minutes of one action that a Cell pays for; any beyond are recorded and not billed. */
  function BillableMinutes(c: Channel): nat {
    if c == Email then 30 else 45
  }

  function Ceiling(c: Channel): int {
    BillableMinutes(c) * HUMAN_MINUTE_RESOURCE_COST
  }

  function Billed(c: Channel, minutes: int): int {
    Min(minutes, BillableMinutes(c)) * HUMAN_MINUTE_RESOURCE_COST
  }

  datatype HoldStatus = Reserved | ExecutionUnknown | PartiallySettled | Settled | Released

  /** `_ALLOWED_TRANSITIONS`, for the statuses a hold on human minutes passes through. */
  predicate MayBecome(from: HoldStatus, to: HoldStatus) {
    match from
    case Reserved => to.Settled? || to.PartiallySettled? || to.Released? || to.ExecutionUnknown?
    case ExecutionUnknown => to.Settled? || to.PartiallySettled? || to.Released?
    case PartiallySettled => to.Released?
    case Settled => false
    case Released => false
  }

  /** The reservation of the action with the same position; `reported` is what was reported. */
  datatype Hold = Hold(cell: nat, maximum: int, settled: int, status: HoldStatus, expiresAt: int, reported: int)

  /** The resource book beside the registry: what each Cell has free and committed, and what has
      been paid for minutes. `told` holds the actions whose result woke their Cell, `subsidies` the
      minutes of an action that its Cell did not pay for. */
  datatype Books = Books(
    registry: Registry,
    holds: seq<Hold>,
    cash: map<nat, int>,
    committed: map<nat, int>,
    paid: int,
    told: set<nat>,
    subsidies: map<nat, int>)

  datatype Problem = Refused(why: Refusal) | NotReserved | InvalidTransition

  function Balance(m: map<nat, int>, cell: nat): int {
    if cell in m then m[cell] else 0
  }

  function Add(m: map<nat, int>, cell: nat, amount: int): map<nat, int> {
    if amount == 0 then m else m[cell := Balance(m, cell) + amount]
  }

  lemma AddTwice(m: map<nat, int>, cell: nat, x: int, y: int)
    requires x + y != 0
    ensures Add(Add(m, cell, x), cell, y) == Add(m, cell, x + y)
  {}

  // ---- the transactions ------------------------------------------------------------------------

  /** The holder as the book knows it: whether the Cell's budget covers the hold is read here. */
  function Funded(b: Books, a: Ask, w: Holder, cell: nat): Holder {
    w.(funded := Ceiling(a.channel) <= Balance(b.cash, cell))
  }

  /** `claim`, its reservation included. */
  function ClaimHeld(b: Books, a: Ask, w: Holder, cell: nat, now: int): Result<Books, Problem> {
    match Claim(b.registry, a, Funded(b, a, w, cell), now)
    case Err(e) => Err(Refused(e))
    case Ok(r) =>
      var amount := Ceiling(a.channel);
      Ok(b.(registry := r,
            holds := b.holds + [Hold(cell, amount, 0, Reserved, now + RESERVATION_TTL, 0)],
            cash := Add(b.cash, cell, -amount),
            committed := Add(b.committed, cell, amount)))
  }

  function Subsidy(c: Channel, minutes: int): int {
    minutes - Min(minutes, BillableMinutes(c))
  }

  function Subsidise(m: map<nat, int>, id: nat, minutes: int): map<nat, int> {
    if minutes > 0 then m[id := minutes] else m
  }

  /** `complete`: usage is only recorded against a hold still reserved. */
  function CompleteHeld(b: Books, id: nat, outcome: Outcome, minutes: int): Result<Books, Problem> {
    match Complete(b.registry, id, outcome, minutes)
    case Err(e) => Err(Refused(e))
    case Ok(r) =>
      if id >= |b.holds| || b.holds[id].status != Reserved then Err(NotReserved)
      else
        var h := b.holds[id];
        var billed := Billed(b.registry.rows[id].channel, minutes);
        var done := h.(settled := billed, reported := minutes,
                       status := if billed == h.maximum then Settled else Released);
        Ok(Books(r, b.holds[id := done], Add(b.cash, h.cell, h.maximum - billed),
                 Add(b.committed, h.cell, -h.maximum), b.paid + billed, b.told + {id},
                 Subsidise(b.subsidies, id, Subsidy(b.registry.rows[id].channel, minutes))))
  }

  /** `abandon`. */
  function AbandonHeld(b: Books, id: nat): Result<Books, Problem> {
    match Abandon(b.registry, id)
    case Err(e) => Err(Refused(e))
    case Ok(r) =>
      if id >= |b.holds| || !MayBecome(b.holds[id].status, Released) then Err(InvalidTransition)
      else
        var h := b.holds[id];
        var back := h.maximum - h.settled;
        Ok(b.(registry := r, holds := b.holds[id := h.(status := Released)],
              cash := Add(b.cash, h.cell, back), committed := Add(b.committed, h.cell, -back)))
  }

  /** One hold under `sweep`: nobody can say whether the person acted, so it is marked unknown. */
  function Swept(h: Hold, now: int): Hold {
    if h.status == Reserved && h.expiresAt <= now then h.(status := ExecutionUnknown) else h
  }

  /** One hold of the sweep, in a transaction of its own. */
  function SweepHold(b: Books, id: nat, now: int): Books {
    if id < |b.holds| then b.(holds := b.holds[id := Swept(b.holds[id], now)]) else b
  }

  /** `sweep` on its own: every hold in turn. */
  function SweepHolds(b: Books, now: int): Books {
    b.(holds := seq(|b.holds|, i requires 0 <= i < |b.holds| => Swept(b.holds[i], now)))
  }

  /** `DeedElsewhere`: whatever the rest of the colony does to what a Cell has free and committed;
      its model calls and tools hold and pay in the same book. */
  datatype Deed =
    | DeedClaim(ask: Ask, holder: Holder, cell: nat, now: int)
    | DeedComplete(id: nat, outcome: Outcome, minutes: int)
    | DeedAbandon(id: nat)
    | DeedSweep(id: nat, now: int)
    | DeedAcknowledge(channel: Channel)
    | DeedFlag(flag: Flag, on: bool)
    | DeedElsewhere(cell: nat, free: int, tied: int)

  function Kept(b: Books, result: Result<Books, Problem>): Books {
    if result.Ok? then result.value else b
  }

  function After(b: Books, d: Deed): Books {
    match d
    case DeedClaim(a, w, cell, now) => Kept(b, ClaimHeld(b, a, w, cell, now))
    case DeedComplete(id, outcome, minutes) => Kept(b, CompleteHeld(b, id, outcome, minutes))
    case DeedAbandon(id) => Kept(b, AbandonHeld(b, id))
    case DeedSweep(id, now) => SweepHold(b, id, now)
    case DeedAcknowledge(channel) => b.(registry := Next(b.registry, DoAcknowledge(channel)))
    case DeedFlag(flag, on) => b.(registry := Next(b.registry, SetFlag(flag, on)))
    case DeedElsewhere(cell, free, tied) =>
      b.(cash := Add(b.cash, cell, free), committed := Add(b.committed, cell, tied))
  }

  function AfterAll(b: Books, deeds: seq<Deed>): Books
    decreases |deeds|
  {
    if deeds == [] then b else AfterAll(After(b, deeds[0]), deeds[1..])
  }

  const NO_BOOKS := Books(EMPTY, [], map[], map[], 0, {}, map[])

  // ---- the books as the program keeps them ----------------------------------------------------

  class LabourDesk {
    const desk: ChannelDesk
    var holds: seq<Hold>
    var cash: map<nat, int>
    var committed: map<nat, int>
    var paid: int
    var told: set<nat>
    var subsidies: map<nat, int>

    constructor (desk: ChannelDesk)
      requires desk.rows == []
      ensures HoldsOk(State())
      ensures this.desk == desk && State() == NO_BOOKS.(registry := desk.State())
    {
      this.desk, holds, cash, committed, paid, told, subsidies := desk, [], map[], map[], 0, {}, map[];
    }

    function State(): Books
      reads this, desk
    {
      Books(desk.State(), holds, cash, committed, paid, told, subsidies)
    }

    /** `_settle_locked`. */
    method Settle(id: nat, amount: int)
      requires id < |holds| && 0 <= amount <= holds[id].maximum && holds[id].settled == 0
      requires MayBecome(holds[id].status, if amount == holds[id].maximum then Settled else PartiallySettled)
      modifies this
      ensures State() == old(var h := holds[id];
                             State().(holds := holds[id := h.(settled := amount,
                                                              status := if amount == h.maximum then Settled
                                                                        else PartiallySettled)],
                                      committed := Add(committed, h.cell, -amount),
                                      paid := paid + amount))
    {
      var h := holds[id];
      if amount > 0 {
        committed := Add(committed, h.cell, -amount);
        paid := paid + amount;
      }
      holds := holds[id := h.(settled := amount, status := if amount == h.maximum then Settled else PartiallySettled)];
    }

    /** `_release_locked`. */
    method Release(id: nat)
      requires id < |holds| && MayBecome(holds[id].status, Released) && holds[id].settled < holds[id].maximum
      modifies this
      ensures State() == old(var h := holds[id]; var back := h.maximum - h.settled;
                             State().(holds := holds[id := h.(status := Released)],
                                      committed := Add(committed, h.cell, -back), cash := Add(cash, h.cell, back)))
    {
      var h := holds[id];
      committed := Add(committed, h.cell, -(h.maximum - h.settled));
      cash := Add(cash, h.cell, h.maximum - h.settled);
      holds := holds[id := h.(status := Released)];
    }

    method ClaimAction(a: Ask, w: Holder, cell: nat, now: int) returns (problem: Option<Problem>)
      modifies this, desk
      ensures match ClaimHeld(old(State()), a, w, cell, now)
              case Ok(b) => State() == b && problem == None
              case Err(e) => State() == old(State()) && problem == Some(e)
    {
      var amount := Ceiling(a.channel);
      var refusal := desk.ClaimAction(a, w.(funded := amount <= Balance(cash, cell)), now);
      if refusal.Some? {
        return Some(Refused(refusal.value));
      }
      cash := Add(cash, cell, -amount);
      committed := Add(committed, cell, amount);
      holds := holds + [Hold(cell, amount, 0, Reserved, now + RESERVATION_TTL, 0)];
      return None;
    }

    /** Settle what is billed and release the rest. */
    method Pay(id: nat, minutes: int)
      requires HoldsOk(State()) && id < |holds| && desk.rows[id].status == Claimed
      requires holds[id].status == Reserved && minutes >= 1
      modifies this
      ensures State() == old(var h := holds[id]; var billed := Billed(desk.rows[id].channel, minutes);
                             State().(holds := holds[id := h.(settled := billed, reported := minutes,
                                                              status := if billed == h.maximum then Settled
                                                                        else Released)],
                                      cash := Add(cash, h.cell, h.maximum - billed),
                                      committed := Add(committed, h.cell, -h.maximum), paid := paid + billed))
    {
      assert HoldOk(desk.rows[id], holds[id]);
      var h, billed := holds[id], Billed(desk.rows[id].channel, minutes);
      Settle(id, billed);
      if billed < h.maximum {
        AddTwice(old(committed), h.cell, -billed, -(h.maximum - billed));
        Release(id);
      }
      holds := holds[id := holds[id].(reported := minutes)];
    }

    /** The wake that tells the Cell, and the minutes nobody is paid for. */
    method Expose(id: nat, minutes: int)
      requires id < |desk.rows|
      modifies this
      ensures State() == old(State().(told := told + {id},
                                      subsidies := Subsidise(subsidies, id, Subsidy(desk.rows[id].channel, minutes))))
    {
      var unpaid := Subsidy(desk.rows[id].channel, minutes);
      if unpaid > 0 {
        subsidies := subsidies[id := unpaid];
      }
      told := told + {id};
    }

    method CompleteAction(id: nat, outcome: Outcome, minutes: int) returns (problem: Option<Problem>)
      requires HoldsOk(State())
      modifies this, desk
      ensures match CompleteHeld(old(State()), id, outcome, minutes)
              case Ok(b) => State() == b && problem == None
              case Err(e) => State() == old(State()) && problem == Some(e)
    {
      assert |holds| == |desk.rows|;
      assert Complete(desk.State(), id, outcome, minutes).Ok?
        <==> 1 <= minutes <= MAX_HUMAN_MINUTES_PER_ACTION && id < |desk.rows| && desk.rows[id].status == Claimed;
      hide Complete, Billed, HoldOk, HoldsOk, Add, Subsidy, Subsidise;
      if 1 <= minutes <= MAX_HUMAN_MINUTES_PER_ACTION && id < |desk.rows| && desk.rows[id].status == Claimed {
        if holds[id].status != Reserved {
          return Some(NotReserved);
        }
        Pay(id, minutes);
        Expose(id, minutes);
      }
      var refusal := desk.CompleteAction(id, outcome, minutes);
      return if refusal.Some? then Some(Refused(refusal.value)) else None;
    }

    method AbandonAction(id: nat) returns (problem: Option<Problem>)
      requires HoldsOk(State())
      modifies this, desk
      ensures match AbandonHeld(old(State()), id)
              case Ok(b) => State() == b && problem == None
              case Err(e) => State() == old(State()) && problem == Some(e)
    {
      if id < |desk.rows| && desk.rows[id].status == Claimed {
        assert HoldOk(desk.rows[id], holds[id]);
        Release(id);
      }
      var refusal := desk.AbandonAction(id);
      return if refusal.Some? then Some(Refused(refusal.value)) else None;
    }

    /** `sweep`, over the holds on human minutes. */
    method SweepExpired(now: int) returns (swept: seq<nat>)
      modifies this`holds
      ensures State() == SweepHolds(old(State()), now)
      ensures forall i: nat :: i in swept <==> i < |holds| && holds[i] != old(holds)[i]
    {
      swept := [];
      for i := 0 to |holds|
        invariant |holds| == |old(holds)|
        invariant forall k :: 0 <= k < i ==> holds[k] == Swept(old(holds)[k], now)
        invariant forall k :: i <= k < |holds| ==> holds[k] == old(holds)[k]
        invariant forall k: nat :: k in swept <==> k < i && holds[k] != old(holds)[k]
      {
        if holds[i].status == Reserved && holds[i].expiresAt <= now {
          holds := holds[i := holds[i].(status := ExecutionUnknown)];
          swept := swept + [i];
        }
      }
    }
  }

  // ---- every hold is its action's --------------------------------------------------------------

  predicate Open(h: Hold) {
    h.status == Reserved || h.status == ExecutionUnknown
  }

  /** The hold of a claimed action is open and whole; a completed one paid for exactly the
      minutes reported, up to the ceiling; an abandoned one gave everything back. */
  ghost predicate HoldOk(row: Row, h: Hold) {
    && h.maximum == Ceiling(row.channel) && h.expiresAt == row.claimedAt + RESERVATION_TTL
    && match row.status
       case Claimed => Open(h) && h.settled == 0
       case Completed =>
         && 1 <= h.reported <= MAX_HUMAN_MINUTES_PER_ACTION && h.settled == Billed(row.channel, h.reported)
         && h.status == if h.settled == h.maximum then Settled else Released
       case Abandoned => h.status == Released && h.settled == 0
  }

  ghost predicate HoldsOk(b: Books) {
    && |b.holds| == |b.registry.rows|
    && forall i :: 0 <= i < |b.holds| ==> HoldOk(b.registry.rows[i], b.holds[i])
  }

  /** Of a completed action: the minutes reported are those billed and those given, and the gift
      is on record exactly when there was one. */
  ghost predicate TellsAll(b: Books, i: nat)
    requires i < |b.holds| && i < |b.registry.rows|
  {
    var row, h := b.registry.rows[i], b.holds[i];
    && (i in b.told <==> row.status == Completed)
    && (i in b.subsidies <==> row.status == Completed && h.reported > BillableMinutes(row.channel))
    && (row.status == Completed ==>
          h.settled + HUMAN_MINUTE_RESOURCE_COST * Balance(b.subsidies, i) == HUMAN_MINUTE_RESOURCE_COST * h.reported)
  }

  ghost predicate ResultsOk(b: Books) {
    && |b.holds| == |b.registry.rows|
    && (forall i :: i in b.told || i in b.subsidies ==> i < |b.holds|)
    && forall i: nat :: i < |b.holds| ==> TellsAll(b, i)
  }

  lemma AfterKeepsHolds(b: Books, d: Deed)
    requires HoldsOk(b)
    ensures HoldsOk(After(b, d))
  {
    hide CheckAction, Add, Subsidise, Subsidy;
    var b' := After(b, d);
    if |b'.holds| > |b.holds| {
      assert HoldOk(b'.registry.rows[|b.holds|], b'.holds[|b.holds|]);
    }
    hide After, HoldOk;
    forall i | 0 <= i < |b.holds| ensures HoldOk(b'.registry.rows[i], b'.holds[i]) {
      RowStaysOk(b, d, i);
    }
  }

  lemma RowStaysOk(b: Books, d: Deed, i: nat)
    requires HoldsOk(b) && i < |b.holds|
    ensures i < |After(b, d).holds| == |After(b, d).registry.rows|
    ensures HoldOk(After(b, d).registry.rows[i], After(b, d).holds[i])
  {
    hide CheckAction, Add, Subsidise, Subsidy;
    assert HoldOk(b.registry.rows[i], b.holds[i]);
  }

  lemma {:induction false} RunKeepsHolds(b: Books, deeds: seq<Deed>)
    requires HoldsOk(b)
    ensures HoldsOk(AfterAll(b, deeds))
    decreases |deeds|
  {
    if deeds == [] {
    } else {
      AfterKeepsHolds(b, deeds[0]);
      RunKeepsHolds(After(b, deeds[0]), deeds[1..]);
    }
  }

  lemma AfterTellsAll(b: Books, d: Deed)
    requires HoldsOk(b) && ResultsOk(b)
    ensures ResultsOk(After(b, d))
  {
    hide CheckAction, Add;
    if d.DeedComplete? && CompleteHeld(b, d.id, d.outcome, d.minutes).Ok? {
      CompletionTellsAll(b, d.id, d.outcome, d.minutes);
    } else {
      hide CompleteHeld, Complete, Subsidise;
      var b' := After(b, d);
      forall i: nat | i < |b'.holds| ensures TellsAll(b', i) {
        if i < |b.holds| { assert TellsAll(b, i) && HoldOk(b.registry.rows[i], b.holds[i]); }
      }
    }
  }

  lemma CompletionTellsAll(b: Books, id: nat, outcome: Outcome, minutes: int)
    requires HoldsOk(b) && ResultsOk(b) && CompleteHeld(b, id, outcome, minutes).Ok?
    ensures ResultsOk(CompleteHeld(b, id, outcome, minutes).value)
  {
    hide Add;
    var b' := CompleteHeld(b, id, outcome, minutes).value;
    forall i: nat | i < |b'.holds| ensures TellsAll(b', i) {
      assert TellsAll(b, i) && HoldOk(b.registry.rows[i], b.holds[i]);
    }
  }

  /** In every run: a Cell is told of a result exactly when its action was completed, and what a
      person gave beyond what the Cell could pay for is on record exactly when there was any, to
      the minute. */
  lemma {:induction false} LabourIsExposed(b: Books, deeds: seq<Deed>)
    requires HoldsOk(b) && ResultsOk(b)
    ensures ResultsOk(AfterAll(b, deeds))
    decreases |deeds|
  {
    if deeds == [] {
    } else {
      hide After, HoldsOk, ResultsOk;
      AfterKeepsHolds(b, deeds[0]);
      AfterTellsAll(b, deeds[0]);
      LabourIsExposed(After(b, deeds[0]), deeds[1..]);
    }
  }

  // ---- the registry underneath is the registry alone ------------------------------------------------

  /** What a deed that went through does to the registry. */
  function OnRegistry(b: Books, d: Deed): seq<Op> {
    match d
    case DeedClaim(a, w, cell, now) =>
      if ClaimHeld(b, a, w, cell, now).Ok? then [DoClaim(a, Funded(b, a, w, cell), now)] else []
    case DeedComplete(id, outcome, minutes) =>
      if CompleteHeld(b, id, outcome, minutes).Ok? then [DoComplete(id, outcome, minutes)] else []
    case DeedAbandon(id) => if AbandonHeld(b, id).Ok? then [DoAbandon(id)] else []
    case DeedSweep(_, _) => []
    case DeedAcknowledge(channel) => [DoAcknowledge(channel)]
    case DeedFlag(flag, on) => [SetFlag(flag, on)]
    case DeedElsewhere(_, _, _) => []
  }

  function AllOnRegistry(b: Books, deeds: seq<Deed>): seq<Op>
    decreases |deeds|
  {
    if deeds == [] then [] else OnRegistry(b, deeds[0]) + AllOnRegistry(After(b, deeds[0]), deeds[1..])
  }

  lemma {:induction false} OneOnRegistry(b: Books, d: Deed, rest: seq<Op>)
    ensures Run(b.registry, OnRegistry(b, d) + rest) == Run(After(b, d).registry, rest)
  {
    hide CheckAction;
    var ops := OnRegistry(b, d);
    if ops == [] {
      assert ops + rest == rest;
    } else {
      assert (ops + rest)[1..] == rest;
      assert Next(b.registry, ops[0]) == After(b, d).registry;
    }
  }

  /** Money only ever refuses: under it the registry goes through a run of its own, so whatever
      holds of every run of the registry holds here. */
  lemma {:induction false} RegistryRunsAlone(b: Books, deeds: seq<Deed>)
    ensures AfterAll(b, deeds).registry == Run(b.registry, AllOnRegistry(b, deeds))
    decreases |deeds|
  {
    if deeds == [] {
    } else {
      hide After, OnRegistry, Run;
      RegistryRunsAlone(After(b, deeds[0]), deeds[1..]);
      OneOnRegistry(b, deeds[0], AllOnRegistry(After(b, deeds[0]), deeds[1..]));
    }
  }

  // ---- conservation -----------------------------------------------------------------------------------

  function Sum(holds: seq<Hold>, f: Hold -> int): int {
    if holds == [] then 0 else Sum(holds[..|holds| - 1], f) + f(holds[|holds| - 1])
  }

  lemma SumOfOneMore(holds: seq<Hold>, h: Hold, f: Hold -> int)
    ensures Sum(holds + [h], f) == Sum(holds, f) + f(h)
  {
    assert (holds + [h])[..|holds|] == holds;
  }

  lemma {:induction false} SumReplaced(holds: seq<Hold>, i: nat, h: Hold, f: Hold -> int)
    requires i < |holds|
    ensures Sum(holds[i := h], f) == Sum(holds, f) - f(holds[i]) + f(h)
    decreases |holds|
  {
    var n := |holds| - 1;
    if i == n {
      assert holds[i := h][..n] == holds[..n];
    } else {
      assert holds[i := h][..n] == holds[..n][i := h];
      SumReplaced(holds[..n], i, h, f);
    }
  }

  lemma {:induction false} SumSame(holds: seq<Hold>, holds': seq<Hold>, f: Hold -> int)
    requires |holds| == |holds'| && forall i :: 0 <= i < |holds| ==> f(holds[i]) == f(holds'[i])
    ensures Sum(holds, f) == Sum(holds', f)
    decreases |holds|
  {
    if holds == [] {
    } else {
      SumSame(holds[..|holds| - 1], holds'[..|holds| - 1], f);
    }
  }

  /** What one Cell has tied up in actions nobody has finished, and what it paid for minutes. */
  function HeldFor(cell: nat): Hold -> int {
    (h: Hold) => if h.cell == cell && Open(h) then h.maximum else 0
  }

  function PaidBy(cell: nat): Hold -> int {
    (h: Hold) => if h.cell == cell then h.settled else 0
  }

  function PaidFor(): Hold -> int {
    (h: Hold) => h.settled
  }

  /** What the rest of the colony did to a Cell's free budget and to what it has committed. */
  function FreedElsewhere(deeds: seq<Deed>, cell: nat): int {
    if deeds == [] then 0
    else
      (if deeds[0].DeedElsewhere? && deeds[0].cell == cell then deeds[0].free else 0)
      + FreedElsewhere(deeds[1..], cell)
  }

  function TiedElsewhere(deeds: seq<Deed>, cell: nat): int {
    if deeds == [] then 0
    else
      (if deeds[0].DeedElsewhere? && deeds[0].cell == cell then deeds[0].tied else 0)
      + TiedElsewhere(deeds[1..], cell)
  }

  /** What is committed beyond `elsewhere` is the ceilings of the unfinished actions. */
  ghost predicate Tallies(b: Books, cell: nat, elsewhere: int) {
    Balance(b.committed, cell) == Sum(b.holds, HeldFor(cell)) + elsewhere && b.paid == Sum(b.holds, PaidFor())
  }

  /** Everything a Cell was ever given and has not passed on: free, committed or paid. */
  function Worth(b: Books, cell: nat): int {
    Balance(b.cash, cell) + Balance(b.committed, cell) + Sum(b.holds, PaidBy(cell))
  }

  lemma HoldMoves(b: Books, b': Books, id: nat, h': Hold, cell: nat, elsewhere: int)
    requires id < |b.holds| && b'.holds == b.holds[id := h']
    requires var h := b.holds[id];
             && Open(h) && !Open(h') && h.settled == 0 && h'.cell == h.cell && h'.maximum == h.maximum
             && b'.cash == Add(b.cash, h.cell, h.maximum - h'.settled)
             && b'.committed == Add(b.committed, h.cell, -h.maximum) && b'.paid == b.paid + h'.settled
    requires Tallies(b, cell, elsewhere)
    ensures Tallies(b', cell, elsewhere) && Worth(b', cell) == Worth(b, cell)
  {
    SumReplaced(b.holds, id, h', HeldFor(cell));
    SumReplaced(b.holds, id, h', PaidBy(cell));
    SumReplaced(b.holds, id, h', PaidFor());
  }

  lemma ClaimTallies(b: Books, a: Ask, w: Holder, c: nat, now: int, cell: nat, elsewhere: int)
    requires Tallies(b, cell, elsewhere) && ClaimHeld(b, a, w, c, now).Ok?
    ensures var b' := ClaimHeld(b, a, w, c, now).value;
            Tallies(b', cell, elsewhere) && Worth(b', cell) == Worth(b, cell)
  {
    hide Claim, Sum;
    var h := Hold(c, Ceiling(a.channel), 0, Reserved, now + RESERVATION_TTL, 0);
    SumOfOneMore(b.holds, h, HeldFor(cell));
    SumOfOneMore(b.holds, h, PaidBy(cell));
    SumOfOneMore(b.holds, h, PaidFor());
  }

  lemma SweepTallies(b: Books, id: nat, now: int, cell: nat, elsewhere: int)
    requires Tallies(b, cell, elsewhere)
    ensures var b' := SweepHold(b, id, now); Tallies(b', cell, elsewhere) && Worth(b', cell) == Worth(b, cell)
  {
    SumSame(b.holds, SweepHold(b, id, now).holds, HeldFor(cell));
    SumSame(b.holds, SweepHold(b, id, now).holds, PaidBy(cell));
    SumSame(b.holds, SweepHold(b, id, now).holds, PaidFor());
  }

  lemma AfterTallies(b: Books, d: Deed, cell: nat, elsewhere: int)
    requires HoldsOk(b) && Tallies(b, cell, elsewhere)
    ensures Tallies(After(b, d), cell, elsewhere + TiedElsewhere([d], cell))
    ensures Worth(After(b, d), cell) == Worth(b, cell) + FreedElsewhere([d], cell) + TiedElsewhere([d], cell)
  {
    hide Claim, Complete, Abandon, Sum, HeldFor, PaidBy, PaidFor, Billed, Ceiling, Subsidise, Subsidy, Add, Tallies,
        Worth;
    assert [d][1..] == [];
    match d
    case DeedClaim(a, w, c, now) =>
      if ClaimHeld(b, a, w, c, now).Ok? { ClaimTallies(b, a, w, c, now, cell, elsewhere); }
    case DeedComplete(id, outcome, minutes) =>
      if CompleteHeld(b, id, outcome, minutes).Ok? {
        assert HoldOk(b.registry.rows[id], b.holds[id]);
        HoldMoves(b, After(b, d), id, After(b, d).holds[id], cell, elsewhere);
      }
    case DeedAbandon(id) =>
      if AbandonHeld(b, id).Ok? {
        assert HoldOk(b.registry.rows[id], b.holds[id]);
        HoldMoves(b, After(b, d), id, After(b, d).holds[id], cell, elsewhere);
      }
    case DeedSweep(id, now) => SweepTallies(b, id, now, cell, elsewhere);
    case _ => UntouchedTally(b, d, cell, elsewhere);
  }

  lemma UntouchedTally(b: Books, d: Deed, cell: nat, elsewhere: int)
    requires Tallies(b, cell, elsewhere) && (d.DeedAcknowledge? || d.DeedFlag? || d.DeedElsewhere?)
    ensures Tallies(After(b, d), cell, elsewhere + TiedElsewhere([d], cell))
    ensures Worth(After(b, d), cell) == Worth(b, cell) + FreedElsewhere([d], cell) + TiedElsewhere([d], cell)
  {
    hide ClaimHeld, CompleteHeld, AbandonHeld, SweepHold, Sum, HeldFor, PaidBy, PaidFor;
    assert [d][1..] == [];
  }

  lemma ElsewhereAdds(deeds: seq<Deed>, cell: nat)
    requires deeds != []
    ensures FreedElsewhere(deeds, cell) == FreedElsewhere([deeds[0]], cell) + FreedElsewhere(deeds[1..], cell)
    ensures TiedElsewhere(deeds, cell) == TiedElsewhere([deeds[0]], cell) + TiedElsewhere(deeds[1..], cell)
  {
    assert [deeds[0]][1..] == [];
  }

  lemma {:induction false} RunTallies(b: Books, deeds: seq<Deed>, cell: nat, elsewhere: int)
    requires HoldsOk(b) && Tallies(b, cell, elsewhere)
    ensures HoldsOk(AfterAll(b, deeds))
    ensures Tallies(AfterAll(b, deeds), cell, elsewhere + TiedElsewhere(deeds, cell))
    ensures Worth(AfterAll(b, deeds), cell) == Worth(b, cell) + FreedElsewhere(deeds, cell) + TiedElsewhere(deeds, cell)
    decreases |deeds|
  {
    hide After, HoldsOk, Tallies, Worth;
    if deeds != [] {
      var d, rest := deeds[0], deeds[1..];
      AfterKeepsHolds(b, d);
      AfterTallies(b, d, cell, elsewhere);
      RunTallies(After(b, d), rest, cell, elsewhere + TiedElsewhere([d], cell));
      ElsewhereAdds(deeds, cell);
      assert AfterAll(b, deeds) == AfterAll(After(b, d), rest);
      hide *;
    }
  }

  /** In every run, whatever else draws on the same book: what a Cell has committed is the ceilings
      of its unfinished actions and what the rest of the colony tied up; what has been paid is
      exactly the billed minutes of the finished ones; and nothing is lost or made between free,
      committed and paid. */
  lemma LabourIsConserved(deeds: seq<Deed>, cell: nat)
    ensures var b := AfterAll(NO_BOOKS, deeds);
            && HoldsOk(b)
            && Balance(b.committed, cell) == Sum(b.holds, HeldFor(cell)) + TiedElsewhere(deeds, cell)
            && b.paid == Sum(b.holds, PaidFor())
            && Balance(b.cash, cell) + Balance(b.committed, cell) + Sum(b.holds, PaidBy(cell))
            == FreedElsewhere(deeds, cell) + TiedElsewhere(deeds, cell)
  {
    RunTallies(NO_BOOKS, deeds, cell, 0);
  }

  // ---- who may still report -------------------------------------------------------------------------------

  predicate Sweeps(d: Deed, id: nat, expiry: int) {
    d.DeedSweep? && d.id == id && d.now >= expiry
  }

  /** Some sweep in the run reached this hold at `expiry` or after. */
  ghost predicate SweptSince(deeds: seq<Deed>, id: nat, expiry: int) {
    exists k :: 0 <= k < |deeds| && Sweeps(deeds[k], id, expiry)
  }

  ghost predicate IsClaimed(b: Books, id: nat) {
    id < |b.registry.rows| && b.registry.rows[id].status == Claimed
  }

  lemma HoldMovesOnce(b: Books, d: Deed, id: nat)
    requires HoldsOk(b) && id < |b.registry.rows|
    ensures var b' := After(b, d);
            && id < |b'.registry.rows| && id < |b'.holds|
            && (!IsClaimed(b, id) ==> !IsClaimed(b', id))
            && (IsClaimed(b', id) ==>
                  b'.holds[id] == if d.DeedSweep? && d.id == id then Swept(b.holds[id], d.now) else b.holds[id])
            && (b.holds[id].status == ExecutionUnknown ==> b'.registry.rows[id].status != Completed)
  {
    hide CheckAction, Add, Subsidise, Billed, Ceiling;
    assert HoldOk(b.registry.rows[id], b.holds[id]);
  }

  lemma {:induction false} FinishedStays(b: Books, deeds: seq<Deed>, id: nat)
    requires HoldsOk(b) && id < |b.registry.rows| && !IsClaimed(b, id)
    ensures !IsClaimed(AfterAll(b, deeds), id)
    decreases |deeds|
  {
    if deeds == [] {
    } else {
      hide After;
      HoldMovesOnce(b, deeds[0], id);
      AfterKeepsHolds(b, deeds[0]);
      FinishedStays(After(b, deeds[0]), deeds[1..], id);
    }
  }

  lemma SweptFirstOrLater(deeds: seq<Deed>, id: nat, expiry: int)
    requires deeds != []
    ensures SweptSince(deeds, id, expiry) <==> Sweeps(deeds[0], id, expiry) || SweptSince(deeds[1..], id, expiry)
  {
    hide Sweeps;
    if SweptSince(deeds[1..], id, expiry) {
      var k :| 0 <= k < |deeds| - 1 && Sweeps(deeds[1..][k], id, expiry);
      assert Sweeps(deeds[k + 1], id, expiry);
    }
    if SweptSince(deeds, id, expiry) {
      var k :| 0 <= k < |deeds| && Sweeps(deeds[k], id, expiry);
      if k > 0 { assert Sweeps(deeds[1..][k - 1], id, expiry); }
    }
  }

  /** While an action stays claimed its hold is as it was, but for being marked unknown by the
      first sweep that reaches it expired. */
  lemma {:induction false} HoldWhileClaimed(b: Books, deeds: seq<Deed>, id: nat)
    requires HoldsOk(b) && IsClaimed(b, id) && IsClaimed(AfterAll(b, deeds), id)
    ensures id < |AfterAll(b, deeds).holds|
    ensures AfterAll(b, deeds).holds[id]
         == b.holds[id].(
              status := if SweptSince(deeds, id, b.holds[id].expiresAt) then ExecutionUnknown else b.holds[id].status)
    decreases |deeds|
  {
    assert HoldOk(b.registry.rows[id], b.holds[id]);
    if deeds == [] {
    } else {
      hide After, HoldOk;
      var b' := After(b, deeds[0]);
      HoldMovesOnce(b, deeds[0], id);
      AfterKeepsHolds(b, deeds[0]);
      if !IsClaimed(b', id) {
        FinishedStays(b', deeds[1..], id);
        assert false;
      }
      HoldWhileClaimed(b', deeds[1..], id);
      SweptFirstOrLater(deeds, id, b.holds[id].expiresAt);
    }
  }

  /** When a person can still report: an action claimed at `now` in any state that can arise, and
      unfinished after any further run, takes a report exactly when no sweep in between reached
      its hold at the expiry or later. Giving it up always works, and returns the whole hold. */
  lemma ReportIsTakenExactly(before: seq<Deed>, a: Ask, w: Holder, cell: nat, now: int, deeds: seq<Deed>,
                             outcome: Outcome, minutes: int)
    requires ClaimHeld(AfterAll(NO_BOOKS, before), a, w, cell, now).Ok? && 1 <= minutes <= MAX_HUMAN_MINUTES_PER_ACTION
    requires var id := |AfterAll(NO_BOOKS, before).registry.rows|;
             IsClaimed(AfterAll(ClaimHeld(AfterAll(NO_BOOKS, before), a, w, cell, now).value, deeds), id)
    ensures var id := |AfterAll(NO_BOOKS, before).registry.rows|;
            var b := AfterAll(ClaimHeld(AfterAll(NO_BOOKS, before), a, w, cell, now).value, deeds);
            && (CompleteHeld(b, id, outcome, minutes).Ok? <==> !SweptSince(deeds, id, now + RESERVATION_TTL))
            && AbandonHeld(b, id).Ok?
            && Balance(AbandonHeld(b, id).value.cash, cell) == Balance(b.cash, cell) + Ceiling(a.channel)
  {
    RunKeepsHolds(NO_BOOKS, before);
    var start := AfterAll(NO_BOOKS, before);
    var claimed := ClaimHeld(start, a, w, cell, now).value;
    AfterKeepsHolds(start, DeedClaim(a, w, cell, now));
    RunKeepsHolds(claimed, deeds);
    HoldWhileClaimed(claimed, deeds, |start.registry.rows|);
  }

  /** And once swept, an action is never completed: in every later state it is still claimed or
      has been given up, whatever was done outside. */
  lemma {:induction false} SweptIsNeverReported(b: Books, deeds: seq<Deed>, id: nat)
    requires HoldsOk(b) && IsClaimed(b, id) && b.holds[id].status == ExecutionUnknown
    ensures id < |AfterAll(b, deeds).registry.rows| && AfterAll(b, deeds).registry.rows[id].status != Completed
    decreases |deeds|
  {
    if deeds == [] {
    } else {
      hide After;
      var b' := After(b, deeds[0]);
      HoldMovesOnce(b, deeds[0], id);
      AfterKeepsHolds(b, deeds[0]);
      if IsClaimed(b', id) {
        SweptIsNeverReported(b', deeds[1..], id);
      } else {
        AbandonedStays(b', deeds[1..], id);
      }
    }
  }

  lemma {:induction false} AbandonedStays(b: Books, deeds: seq<Deed>, id: nat)
    requires HoldsOk(b) && id < |b.registry.rows| && b.registry.rows[id].status == Abandoned
    ensures id < |AfterAll(b, deeds).registry.rows| && AfterAll(b, deeds).registry.rows[id].status == Abandoned
    decreases |deeds|
  {
    if deeds == [] {
    } else {
      hide CheckAction, Add, Subsidise, Billed;
      AfterKeepsHolds(b, deeds[0]);
      hide HoldsOk;
      AbandonedStays(After(b, deeds[0]), deeds[1..], id);
    }
  }

  function SweepOf(n: nat, now: int): seq<Deed> {
    seq(n, i requires 0 <= i < n => DeedSweep(i, now))
  }

  lemma {:induction false} DeedsAppend(b: Books, first: seq<Deed>, rest: seq<Deed>)
    ensures AfterAll(b, first + rest) == AfterAll(AfterAll(b, first), rest)
    decreases |first|
  {
    if first == [] {
      assert first + rest == rest;
    } else {
      hide After;
      assert (first + rest)[1..] == first[1..] + rest;
      DeedsAppend(After(b, first[0]), first[1..], rest);
    }
  }

  lemma {:induction false} SweepSteps(b: Books, n: nat, now: int)
    requires n <= |b.holds|
    ensures var b' := AfterAll(b, SweepOf(n, now));
            && b' == b.(holds := b'.holds) && |b'.holds| == |b.holds|
            && forall i :: 0 <= i < |b.holds| ==> b'.holds[i] == if i < n then Swept(b.holds[i], now) else b.holds[i]
  {
    if n == 0 {
    } else {
      hide Swept;
      SweepSteps(b, n - 1, now);
      assert SweepOf(n, now) == SweepOf(n - 1, now) + [DeedSweep(n - 1, now)];
      DeedsAppend(b, SweepOf(n - 1, now), [DeedSweep(n - 1, now)]);
      var before := AfterAll(b, SweepOf(n - 1, now));
      assert [DeedSweep(n - 1, now)][1..] == [];
      assert AfterAll(before, [DeedSweep(n - 1, now)]) == AfterAll(After(before, DeedSweep(n - 1, now)), []);
    }
  }

  /** A sweep with nothing between its holds is the run of its one-hold transactions. */
  lemma {:induction false} SweepIsItsSteps(b: Books, now: int)
    ensures SweepHolds(b, now) == AfterAll(b, SweepOf(|b.holds|, now))
  {
    SweepSteps(b, |b.holds|, now);
    assert SweepHolds(b, now).holds == AfterAll(b, SweepOf(|b.holds|, now)).holds;
  }

  // ---- a late report ----------------------------------------------------------------------------------------

  const MAIL := Ask(Email, Named("k"), NotGiven, NotGiven, None)
  const MAILED := NewRow(MAIL, FIRST, 0)
  const HELD := Hold(1, 300, 0, Reserved, RESERVATION_TTL, 0)

  const FUNDED := NO_BOOKS.(registry := EMPTY.(enabled := {ExternalMessage}), cash := map[1 := 300, 2 := 300])
  const CLAIMED := FUNDED.(registry := FUNDED.registry.(rows := [MAILED], consumed := {1}), holds := [HELD],
                           cash := Add(FUNDED.cash, 1, -300), committed := Add(FUNDED.committed, 1, 300))
  const UNKNOWN := CLAIMED.(holds := [HELD.(status := ExecutionUnknown)])
  const GIVEN_UP := CLAIMED.(registry := CLAIMED.registry.(rows := [MAILED.(status := Abandoned)]),
                             holds := [HELD.(status := Released)],
                             cash := Add(CLAIMED.cash, 1, 300), committed := Add(CLAIMED.committed, 1, -300))

  lemma FundedIsReachable()
    ensures FUNDED == AfterAll(NO_BOOKS,
                               [DeedFlag(ExternalMessage, true), DeedElsewhere(1, 300, 0), DeedElsewhere(2, 300, 0)])
  {
    hide ClaimHeld, CompleteHeld, AbandonHeld, SweepHold;
    var a, b, c := DeedFlag(ExternalMessage, true), DeedElsewhere(1, 300, 0), DeedElsewhere(2, 300, 0);
    assert [a, b, c][1..] == [b, c] && [b, c][1..] == [c] && [c][1..] == [];
    var b1 := After(NO_BOOKS, a);
    var b2 := After(b1, b);
    assert After(b2, c) == FUNDED;
    hide After;
    assert AfterAll(NO_BOOKS, [a, b, c]) == AfterAll(b1, [b, c]);
    assert AfterAll(b1, [b, c]) == AfterAll(b2, [c]);
    assert AfterAll(b2, [c]) == AfterAll(FUNDED, []);
  }

  lemma MailIsClaimed()
    ensures ClaimHeld(FUNDED, MAIL, FIRST, 1, 0) == Ok(CLAIMED)
  {
    QuietChannelAllows(FUNDED.registry, MAIL, SpecOf(Email).value, "k", 1, 0);
    hide CheckAction, Add;
    var r := FUNDED.registry;
    assert Funded(FUNDED, MAIL, FIRST, 1) == FIRST;
    assert r.rows + [MAILED] == [MAILED] && r.consumed + {1} == {1} && FUNDED.holds + [HELD] == [HELD];
    assert Claim(r, MAIL, FIRST, 0) == Ok(CLAIMED.registry);
    assert Balance(FUNDED.cash, 1) == 300;
  }

  lemma SweepMarksUnknown()
    ensures SweepHold(CLAIMED, 0, RESERVATION_TTL) == UNKNOWN
    ensures CompleteHeld(UNKNOWN, 0, Delivered, 5) == Err(NotReserved)
  {
    assert SweepHold(CLAIMED, 0, RESERVATION_TTL).holds == UNKNOWN.holds;
  }

  lemma GivingUpWorks()
    ensures AbandonHeld(UNKNOWN, 0) == Ok(GIVEN_UP)
  {
    hide Add;
    assert UNKNOWN.registry.rows[0 := MAILED.(status := Abandoned)] == GIVEN_UP.registry.rows;
    assert UNKNOWN.holds[0 := HELD.(status := Released)] == GIVEN_UP.holds;
  }

  lemma OneAbandonedAllows(now: int)
    ensures ClaimHeld(GIVEN_UP, MAIL, SECOND, 2, now).Ok?
  {
    var r := GIVEN_UP.registry;
    assert r.rows[..0] == [] && r.rows[0].status == Abandoned;
    assert RecentCount(r.rows, Email, now - CONTACT_WINDOW_SECONDS) == 0 && OpenCount(r.rows, Email) == 0;
    assert TargetOf(SpecOf(Email).value, MAIL) == Ok("k");
    assert Claim(r, MAIL, SECOND, now).Ok?;
    assert Balance(GIVEN_UP.cash, 2) == 300 && Funded(GIVEN_UP, MAIL, SECOND, 2) == SECOND;
  }

  /** A person writes to someone within the window, and a sweep passes before they say so. Their
      report is refused; the claim can only be given up; and then another lineage is let through
      to the same person, still within the window. */
  lemma LateReportLosesTheContact()
    ensures FUNDED == AfterAll(NO_BOOKS,
                               [DeedFlag(ExternalMessage, true), DeedElsewhere(1, 300, 0), DeedElsewhere(2, 300, 0)])
    ensures ClaimHeld(FUNDED, MAIL, FIRST, 1, 0) == Ok(CLAIMED)
    ensures var late := SweepHold(CLAIMED, 0, RESERVATION_TTL);
            && CompleteHeld(late, 0, Delivered, 5) == Err(NotReserved)
            && AbandonHeld(late, 0).Ok?
            && ClaimHeld(AbandonHeld(late, 0).value, MAIL, SECOND, 2, RESERVATION_TTL).Ok?
            && RESERVATION_TTL < CONTACT_WINDOW_SECONDS
  {
    FundedIsReachable();
    MailIsClaimed();
    SweepMarksUnknown();
    GivingUpWorks();
    OneAbandonedAllows(RESERVATION_TTL);
    hide ClaimHeld, CompleteHeld, AbandonHeld, SweepHold, AfterAll;
  }
}
