/**
 A person's time in the program's own numbers: what a claim holds, what a report pays and says,
 what is given back, and what a complaint does to everything claimed afterwards.
 */
module LabourExact {
  import opened Basics
  import opened Channels
  import opened ChannelRuns
  import opened ChannelExact
  import opened Labour

  /** Half an hour of a person's time by email, three quarters of one elsewhere, at 10 a minute. */
  function HoldOf(channel: Channel): int {
    if channel == Email then 300 else 450
  }

  /** What a Cell has free and tied up moves by these amounts and nobody else's does. */
  ghost predicate Moves(b: Books, b': Books, cell: nat, free: int, tied: int) {
    forall c: nat ::
      && Balance(b'.cash, c) == Balance(b.cash, c) + (if c == cell then free else 0)
      && Balance(b'.committed, c) == Balance(b.committed, c) + (if c == cell then tied else 0)
  }

  /** At most hold `id` is new. */
  ghost predicate OnlyHold(b: Books, b': Books, id: nat, h: Hold) {
    && |b'.holds| == |b.holds| && id < |b.holds| && b'.holds[id] == h
    && forall i :: 0 <= i < |b.holds| && i != id ==> b'.holds[i] == b.holds[i]
  }

  lemma AddMoves(m: map<nat, int>, cell: nat, amount: int, c: nat)
    ensures Balance(Add(m, cell, amount), c) == Balance(m, c) + if c == cell then amount else 0
  {}

  lemma BooksMove(b: Books, b': Books, cell: nat, free: int, tied: int)
    requires b'.cash == Add(b.cash, cell, free) && b'.committed == Add(b.committed, cell, tied)
    ensures Moves(b, b', cell, free, tied)
  {
    hide Add;
    forall c: nat
      ensures Balance(b'.cash, c) == Balance(b.cash, c) + (if c == cell then free else 0)
      ensures Balance(b'.committed, c) == Balance(b.committed, c) + (if c == cell then tied else 0)
    {
      AddMoves(b.cash, cell, free, c);
      AddMoves(b.committed, cell, tied, c);
    }
  }

  /** A claim goes through exactly when the registry lets it and the Cell has the whole hold free.
      It then ties up that much of the Cell's budget for eight hours. */
  lemma ClaimingIsExact(b: Books, a: Ask, w: Holder, cell: nat, now: int)
    ensures ClaimHeld(b, a, w, cell, now).Ok? <==>
              && w.grant !in b.registry.consumed && w.granted && w.mayAct && w.deliverable
              && MayGo(b.registry, a, w.founder, now) && HoldOf(a.channel) <= Balance(b.cash, cell)
    ensures ClaimHeld(b, a, w, cell, now).Ok? ==>
              var b' := ClaimHeld(b, a, w, cell, now).value;
              && b'.registry == Claim(b.registry, a, w.(funded := true), now).value
              && b'.holds == b.holds + [Hold(cell, HoldOf(a.channel), 0, Reserved, now + 28_800, 0)]
              && Moves(b, b', cell, -HoldOf(a.channel), HoldOf(a.channel))
              && b'.paid == b.paid && b'.told == b.told && b'.subsidies == b.subsidies
  {
    ClaimByChannel(b.registry, a, Funded(b, a, w, cell), now);
    hide CheckAction, MayGo, Add;
    if ClaimHeld(b, a, w, cell, now).Ok? {
      assert Funded(b, a, w, cell) == w.(funded := true);
      BooksMove(b, ClaimHeld(b, a, w, cell, now).value, cell, -HoldOf(a.channel), HoldOf(a.channel));
    }
  }

  /** The minutes that a Cell can pay for, and those that a person gave beyond them. */
  function MostPaid(channel: Channel): int {
    if channel == Email then 30 else 45
  }

  function PaidMinutes(channel: Channel, minutes: int): int {
    if minutes <= MostPaid(channel) then minutes else MostPaid(channel)
  }

  /** A report is taken exactly for a claimed action whose hold nobody swept, of one to 480 minutes;
      a swept one is refused for that alone. */
  lemma ReportsAreExact(b: Books, id: nat, outcome: Outcome, minutes: int)
    requires HoldsOk(b)
    ensures CompleteHeld(b, id, outcome, minutes).Ok? <==>
              && 1 <= minutes <= 480 && id < |b.registry.rows| && b.registry.rows[id].status == Claimed
              && b.holds[id].status == Reserved
    ensures CompleteHeld(b, id, outcome, minutes) == Err(NotReserved) <==>
              && 1 <= minutes <= 480 && id < |b.registry.rows| && b.registry.rows[id].status == Claimed
              && b.holds[id].status == ExecutionUnknown
  {
    if id < |b.holds| { assert HoldOk(b.registry.rows[id], b.holds[id]); }
    hide HoldsOk, Add, Subsidise, Billed;
  }

  /** What a report does: it completes the row, pays 10 for each minute up to the most a Cell can pay
      for, gives the rest of the hold back, tells the Cell, and records what was given beyond. Only
      a complaint or a request to stop freezes the channel and blocks the person. */
  lemma ReportIsExact(b: Books, id: nat, outcome: Outcome, minutes: int)
    requires HoldsOk(b) && CompleteHeld(b, id, outcome, minutes).Ok?
    ensures var b' := CompleteHeld(b, id, outcome, minutes).value;
            var row := b.registry.rows[id]; var h := b.holds[id];
            var paid := 10 * PaidMinutes(row.channel, minutes);
            && b'.registry == Complete(b.registry, id, outcome, minutes).value
            && OnlyHold(b, b', id, h.(settled := paid, reported := minutes,
                                      status := if minutes >= MostPaid(row.channel) then Settled else Released))
            && Moves(b, b', h.cell, HoldOf(row.channel) - paid, -HoldOf(row.channel))
            && b'.paid == b.paid + paid && b'.told == b.told + {id}
            && b'.subsidies == (if minutes > MostPaid(row.channel)
                                then b.subsidies[id := minutes - MostPaid(row.channel)] else b.subsidies)
    ensures var b' := CompleteHeld(b, id, outcome, minutes).value;
            var row := b.registry.rows[id];
            && b'.registry.frozen == (if outcome == Complaint || outcome == AskedToStop
                                      then b.registry.frozen + {row.channel} else b.registry.frozen)
            && b'.registry.blocked == (if (outcome == Complaint || outcome == AskedToStop) && row.counterparty.Some?
                                       then b.registry.blocked + {row.counterparty.value} else b.registry.blocked)
  {
    assert HoldOk(b.registry.rows[id], b.holds[id]);
    CompletionIsExact(b.registry, id, outcome, minutes);
    var b' := CompleteHeld(b, id, outcome, minutes).value;
    var row, h := b.registry.rows[id], b.holds[id];
    hide HoldsOk, Add, Complete;
    BooksMove(b, b', h.cell, HoldOf(row.channel) - 10 * PaidMinutes(row.channel, minutes), -HoldOf(row.channel));
    hide Moves;
  }

  /** Giving an action up works exactly while it is claimed, and returns the whole hold. */
  lemma GivingUpIsExact(b: Books, id: nat)
    requires HoldsOk(b)
    ensures AbandonHeld(b, id).Ok? <==> id < |b.registry.rows| && b.registry.rows[id].status == Claimed
    ensures AbandonHeld(b, id).Ok? ==>
              var b' := AbandonHeld(b, id).value;
              var row := b.registry.rows[id];
              && b'.registry == Abandon(b.registry, id).value
              && OnlyHold(b, b', id, b.holds[id].(status := Released))
              && Moves(b, b', b.holds[id].cell, HoldOf(row.channel), -HoldOf(row.channel))
              && b'.paid == b.paid && b'.told == b.told && b'.subsidies == b.subsidies
  {
    if id < |b.holds| { assert HoldOk(b.registry.rows[id], b.holds[id]); }
    hide HoldsOk, Add;
    if AbandonHeld(b, id).Ok? {
      BooksMove(b, AbandonHeld(b, id).value, b.holds[id].cell, b.holds[id].maximum, -b.holds[id].maximum);
    }
    hide Moves;
  }

  /** One hold under the sweep: unknown from now on exactly when it was still reserved and its eight
      hours are over. */
  lemma SweepingIsExact(b: Books, id: nat, now: int)
    ensures var b' := After(b, DeedSweep(id, now));
            if id < |b.holds| && b.holds[id].status == Reserved && b.holds[id].expiresAt <= now then
              && OnlyHold(b, b', id, b.holds[id].(status := ExecutionUnknown)) && b' == b.(holds := b'.holds)
            else b' == b
  {}

  /** A hold ends once: settled or given back from reserved, by way of unknown or not, and from
      unknown only given back. It is never changed afterwards. */
  lemma HoldsMoveForward(b: Books, d: Deed, i: nat)
    requires HoldsOk(b) && i < |b.holds|
    ensures i < |After(b, d).holds|
    ensures var h, h' := b.holds[i], After(b, d).holds[i];
            && h'.cell == h.cell && h'.maximum == h.maximum && h'.expiresAt == h.expiresAt
            && (h.status == Reserved ==> h'.status != PartiallySettled && (h'.status == Reserved ==> h' == h))
            && (h.status == ExecutionUnknown ==> h' == h || h' == h.(status := Released))
            && (h.status in {Settled, Released} ==> h' == h)
            && h.status != PartiallySettled
  {
    assert HoldOk(b.registry.rows[i], b.holds[i]);
    hide HoldsOk, CheckAction, Add, Subsidise, Subsidy, Billed;
  }

  // ---- harm, through the books --------------------------------------------------------------------

  lemma {:induction false} OnlyDeedsAcknowledge(b: Books, deeds: seq<Deed>, channel: Channel)
    ensures DoAcknowledge(channel) in AllOnRegistry(b, deeds) <==> DeedAcknowledge(channel) in deeds
    decreases |deeds|
  {
    if deeds == [] {
    } else {
      OnlyDeedsAcknowledge(After(b, deeds[0]), deeds[1..], channel);
      hide After, ClaimHeld, CompleteHeld, AbandonHeld;
      assert deeds == [deeds[0]] + deeds[1..];
    }
  }

  /** One complaint, or one request to stop, reported through the books: whatever is claimed, paid,
      swept or given up afterwards, no new action is ever for that person, and none is on that
      channel until it is acknowledged. */
  lemma HarmHolds(b: Books, id: nat, outcome: Outcome, minutes: int, deeds: seq<Deed>)
    requires outcome == Complaint || outcome == AskedToStop
    requires CompleteHeld(b, id, outcome, minutes).Ok?
    ensures var row := b.registry.rows[id];
            var after := AfterAll(CompleteHeld(b, id, outcome, minutes).value, deeds).registry;
            && (row.counterparty.Some? ==> NoneTo(after.rows, |b.registry.rows|, row.counterparty.value))
            && (DeedAcknowledge(row.channel) !in deeds ==> NoneOn(after.rows, |b.registry.rows|, row.channel))
  {
    var b' := CompleteHeld(b, id, outcome, minutes).value;
    assert b'.registry == Complete(b.registry, id, outcome, minutes).value;
    CompletionIsExact(b.registry, id, outcome, minutes);
    hide CompleteHeld, Complete, AfterAll, NoneTo, NoneOn, Run;
    RegistryRunsAlone(b', deeds);
    OnlyDeedsAcknowledge(b', deeds, b.registry.rows[id].channel);
    DamageHolds(b.registry, id, outcome, minutes, AllOnRegistry(b', deeds));
  }
}
