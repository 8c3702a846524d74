/**
 The channel registry said channel by channel and outcome by outcome, in the program's own
 numbers: when each kind of claim goes through, what each report does, and, over every run,
 exactly which channels are frozen and which people may never be contacted again.
 */
module ChannelExact {
  import opened Basics
  import opened Channels
  import opened ChannelRuns

  const DAY := 24 * 60 * 60

  // ---- counting as sets --------------------------------------------------------------------

  /** Not given up, and claimed in the last day. */
  predicate StillCounts(row: Row, now: int) {
    row.status != Abandoned && now - DAY <= row.claimedAt
  }

  /** The actions on a channel that still count. */
  ghost function RecentOn(rows: seq<Row>, channel: Channel, now: int): set<nat> {
    set i: nat | i < |rows| && rows[i].channel == channel && StillCounts(rows[i], now)
  }

  ghost function UnfinishedOn(rows: seq<Row>, channel: Channel): set<nat> {
    set i: nat | i < |rows| && rows[i].channel == channel && rows[i].status == Claimed
  }

  lemma RecentOfOneMore(rows: seq<Row>, channel: Channel, now: int)
    requires rows != []
    ensures var n := |rows| - 1;
            RecentOn(rows, channel, now)
            == RecentOn(rows[..n], channel, now)
               + if rows[n].channel == channel && StillCounts(rows[n], now) then {n} else {}
    ensures |rows| - 1 !in RecentOn(rows[..|rows| - 1], channel, now)
  {}

  lemma {:induction false} RecentIsASize(rows: seq<Row>, channel: Channel, now: int)
    ensures RecentCount(rows, channel, now - DAY) == |RecentOn(rows, channel, now)|
    decreases |rows|
  {
    if rows == [] {
      assert RecentOn(rows, channel, now) == {};
    } else {
      RecentOfOneMore(rows, channel, now);
      hide RecentOn;
      RecentIsASize(rows[..|rows| - 1], channel, now);
    }
  }

  lemma UnfinishedOfOneMore(rows: seq<Row>, channel: Channel)
    requires rows != []
    ensures var n := |rows| - 1;
            UnfinishedOn(rows, channel)
            == UnfinishedOn(rows[..n], channel)
               + if rows[n].channel == channel && rows[n].status == Claimed then {n} else {}
    ensures |rows| - 1 !in UnfinishedOn(rows[..|rows| - 1], channel)
  {}

  lemma {:induction false} OpenIsASize(rows: seq<Row>, channel: Channel)
    ensures OpenCount(rows, channel) == |UnfinishedOn(rows, channel)|
    decreases |rows|
  {
    if rows == [] {
      assert UnfinishedOn(rows, channel) == {};
    } else {
      UnfinishedOfOneMore(rows, channel);
      hide UnfinishedOn;
      OpenIsASize(rows[..|rows| - 1], channel);
    }
  }

  // ---- when a claim goes through -------------------------------------------------------------

  ghost predicate EmailMayGo(r: Registry, a: Ask, founder: nat, now: int) {
    && a.counterparty.Named? && a.counterparty.key !in r.blocked
    && ExternalMessage in r.enabled && Email !in r.frozen
    && (forall row :: row in r.rows && StillCounts(row, now) && row.counterparty == Some(a.counterparty.key) ==>
          row.founder == founder && row.channel != Email)
    && |RecentOn(r.rows, Email, now)| < 5 && |UnfinishedOn(r.rows, Email)| < 2
  }

  ghost predicate ListingMayGo(r: Registry, a: Ask, founder: nat, now: int) {
    && a.account.Named? && a.counterparty == NotGiven
    && RealCommerce in r.enabled && MarketplaceListing !in r.frozen
    && (forall row :: row in r.rows && StillCounts(row, now) && row.account == Some(a.account.key) ==>
          && row.founder == founder
          && (a.artifact.Some? ==> !(row.channel == MarketplaceListing && row.artifact == a.artifact)))
    && |RecentOn(r.rows, MarketplaceListing, now)| < 3 && |UnfinishedOn(r.rows, MarketplaceListing)| < 2
  }

  ghost predicate PageMayGo(r: Registry, a: Ask, founder: nat, now: int) {
    && a.domain.Named? && a.counterparty == NotGiven
    && ExternalPublish in r.enabled && WebPublish !in r.frozen
    && (forall row :: row in r.rows && StillCounts(row, now) && row.domain == Some(a.domain.key) ==>
          && row.founder == founder
          && (a.artifact.Some? ==> !(row.channel == WebPublish && row.artifact == a.artifact)))
    && |RecentOn(r.rows, WebPublish, now)| < 3 && |UnfinishedOn(r.rows, WebPublish)| < 2
  }

  ghost predicate MayGo(r: Registry, a: Ask, founder: nat, now: int) {
    match a.channel
    case Email => EmailMayGo(r, a, founder, now)
    case MarketplaceListing => ListingMayGo(r, a, founder, now)
    case WebPublish => PageMayGo(r, a, founder, now)
    case Unregistered => false
  }

  function GivenKey(g: Given): Option<string> {
    match g
    case Named(key) => Some(key)
    case Blank => None
    case NotGiven => None
  }

  lemma CheckByChannel(r: Registry, a: Ask, founder: nat, now: int)
    ensures CheckAction(r, a, Some(founder), now).None? <==> MayGo(r, a, founder, now)
  {
    RecentIsASize(r.rows, a.channel, now);
    OpenIsASize(r.rows, a.channel);
    hide RecentOn, UnfinishedOn, RecentCount, OpenCount;
    assert forall i :: 0 <= i < |r.rows| ==> r.rows[i] in r.rows;
  }

  /** A claim goes through exactly when its grant is unused and good, its Cell may act, its channel
      lets it out, what it delivers may be delivered and its hold is covered; and then it uses up
      the grant and adds one row that says what was asked, by whom and when. */
  lemma ClaimByChannel(r: Registry, a: Ask, w: Holder, now: int)
    ensures Claim(r, a, w, now).Ok? <==>
              && w.grant !in r.consumed && w.granted && w.mayAct && w.deliverable && w.funded
              && MayGo(r, a, w.founder, now)
    ensures Claim(r, a, w, now).Ok? ==>
              Claim(r, a, w, now).value
              == Registry(r.rows + [Row(a.channel, GivenKey(a.counterparty), GivenKey(a.domain), GivenKey(a.account),
                                        a.artifact, w.founder, w.grant, Claimed, now)],
                          r.frozen, r.blocked, r.enabled, r.consumed + {w.grant})
  {
    CheckByChannel(r, a, w.founder, now);
    hide CheckAction, EmailMayGo, ListingMayGo, PageMayGo;
  }

  /** Asked about no lineage, the registry answers for the strictest: only an email, and only to a
      person on no standing row of any channel. */
  lemma UnnamedByChannel(r: Registry, a: Ask, now: int)
    ensures CheckAction(r, a, None, now).None? <==>
              && a.channel == Email && a.counterparty.Named? && a.counterparty.key !in r.blocked
              && ExternalMessage in r.enabled && Email !in r.frozen
              && (forall row :: row in r.rows && StillCounts(row, now) ==>
                    row.counterparty != Some(a.counterparty.key))
              && |RecentOn(r.rows, Email, now)| < 5 && |UnfinishedOn(r.rows, Email)| < 2
  {
    RecentIsASize(r.rows, a.channel, now);
    OpenIsASize(r.rows, a.channel);
    hide RecentOn, UnfinishedOn, RecentCount, OpenCount;
    assert forall i :: 0 <= i < |r.rows| ==> r.rows[i] in r.rows;
  }

  // ---- why a claim is refused -----------------------------------------------------------------

  function FlagFor(channel: Channel): Flag {
    match channel
    case Email => ExternalMessage
    case MarketplaceListing => RealCommerce
    case _ => ExternalPublish
  }

  /** On a channel that the program knows, whose autonomy flag is on and which is not frozen. */
  predicate IsOpen(r: Registry, channel: Channel) {
    channel != Unregistered && FlagFor(channel) in r.enabled && channel !in r.frozen
  }

  function TargetFor(a: Ask): Given {
    match a.channel
    case Email => a.counterparty
    case MarketplaceListing => a.account
    case _ => a.domain
  }

  /** The channel is open and the target is one that it takes. */
  predicate IsAimed(r: Registry, a: Ask) {
    IsOpen(r, a.channel) && TargetFor(a).Named? && (a.channel == Email || a.counterparty == NotGiven)
  }

  predicate IsAtTarget(row: Row, a: Ask) {
    && TargetFor(a).Named?
    && match a.channel
       case Email => row.counterparty == Some(TargetFor(a).key)
       case MarketplaceListing => row.account == Some(TargetFor(a).key)
       case _ => row.domain == Some(TargetFor(a).key)
  }

  ghost predicate ForAnother(r: Registry, a: Ask, founder: nat, now: int) {
    exists row :: row in r.rows && StillCounts(row, now) && IsAtTarget(row, a) && row.founder != founder
  }

  ghost predicate ForItself(r: Registry, a: Ask, now: int) {
    exists row :: row in r.rows && StillCounts(row, now) && IsAtTarget(row, a) && row.channel == a.channel
                  && (a.channel == Email || (a.artifact.Some? && row.artifact == a.artifact))
  }

  predicate IsBlocked(r: Registry, a: Ask) {
    a.channel == Email && a.counterparty.Named? && a.counterparty.key in r.blocked
  }

  /** Every refusal of a check of a known lineage, in the order in which one hides the next: the
      channel, the shape of the target, the person, another lineage, the same again, the caps. */
  lemma RefusalsByChannel(r: Registry, a: Ask, founder: nat, now: int)
    ensures var why := CheckAction(r, a, Some(founder), now);
            && (why == Some(UnknownChannel) <==> a.channel == Unregistered)
            && (why == Some(AutonomyOff) <==> a.channel != Unregistered && FlagFor(a.channel) !in r.enabled)
            && (why == Some(Refusal.Frozen) <==>
                  a.channel != Unregistered && FlagFor(a.channel) in r.enabled && a.channel in r.frozen)
            && (why == Some(TakesNoCounterparty) <==>
                  IsOpen(r, a.channel) && a.channel != Email && a.counterparty != NotGiven)
            && (why == Some(TargetMissing) <==>
                  IsOpen(r, a.channel) && !TargetFor(a).Named? && (a.channel == Email || a.counterparty == NotGiven))
            && (why == Some(Blocked) <==> IsAimed(r, a) && IsBlocked(r, a))
  {
    hide SiblingReached, ReachedOn, PublishedOn, RecentCount, OpenCount;
  }

  lemma CollisionsByChannel(r: Registry, a: Ask, founder: nat, now: int)
    ensures var why := CheckAction(r, a, Some(founder), now);
            && (why == Some(SiblingCollision) <==>
                  IsAimed(r, a) && !IsBlocked(r, a) && ForAnother(r, a, founder, now))
            && (why == Some(DuplicateContact) <==>
                  && a.channel == Email && IsAimed(r, a) && !IsBlocked(r, a)
                  && !ForAnother(r, a, founder, now) && ForItself(r, a, now))
            && (why == Some(DuplicatePublication) <==>
                  a.channel != Email && IsAimed(r, a) && !ForAnother(r, a, founder, now) && ForItself(r, a, now))
            && why != Some(LineageMissing)
  {
    hide RecentCount, OpenCount;
    assert forall i :: 0 <= i < |r.rows| ==> r.rows[i] in r.rows;
  }

  lemma CapsByChannel(r: Registry, a: Ask, founder: nat, now: int)
    ensures var why := CheckAction(r, a, Some(founder), now);
            var fits := IsAimed(r, a) && !IsBlocked(r, a) && !ForAnother(r, a, founder, now) && !ForItself(r, a, now);
            var full := |RecentOn(r.rows, a.channel, now)| >= if a.channel == Email then 5 else 3;
            && (why == Some(RateLimit) <==> fits && full)
            && (why == Some(QuotaExceeded) <==> fits && !full && |UnfinishedOn(r.rows, a.channel)| >= 2)
  {
    RecentIsASize(r.rows, a.channel, now);
    OpenIsASize(r.rows, a.channel);
    hide RecentOn, UnfinishedOn, RecentCount, OpenCount;
    assert forall i :: 0 <= i < |r.rows| ==> r.rows[i] in r.rows;
  }

  /** Every refusal of a claim, in the same way: the grant, the channel, the Cell, the check, what
      it delivers, its funds. */
  lemma ClaimRefusals(r: Registry, a: Ask, w: Holder, now: int)
    ensures var c := Claim(r, a, w, now);
            var usable := w.grant !in r.consumed && w.granted;
            && (c == Err(GrantConsumed) <==> w.grant in r.consumed)
            && (c == Err(NotGranted) <==> w.grant !in r.consumed && !w.granted)
            && (c == Err(UnknownChannel) <==> usable && a.channel == Unregistered)
            && (c == Err(CellMayNotAct) <==> usable && a.channel != Unregistered && !w.mayAct)
            && (usable && a.channel != Unregistered && w.mayAct && !MayGo(r, a, w.founder, now) ==>
                  c.Err? && Some(c.error) == CheckAction(r, a, Some(w.founder), now))
            && (c == Err(NotDeliverable) <==>
                  usable && w.mayAct && MayGo(r, a, w.founder, now) && !w.deliverable)
            && (c == Err(NotFunded) <==>
                  usable && w.mayAct && MayGo(r, a, w.founder, now) && w.deliverable && !w.funded)
  {
    CheckByChannel(r, a, w.founder, now);
    ChecksOwnReasons(r, a, w.founder, now);
    hide CheckAction, EmailMayGo, ListingMayGo, PageMayGo;
  }

  lemma ChecksOwnReasons(r: Registry, a: Ask, founder: nat, now: int)
    ensures CheckAction(r, a, Some(founder), now)
         !in {Some(GrantConsumed), Some(NotGranted), Some(CellMayNotAct), Some(NotDeliverable), Some(NotFunded)}
    ensures CheckAction(r, a, Some(founder), now) == Some(UnknownChannel) <==> a.channel == Unregistered
  {}

  // ---- what a report and an abandonment do -----------------------------------------------------

  /** A complaint, or being asked to stop. */
  predicate Harms(outcome: Outcome) {
    outcome == Complaint || outcome == AskedToStop
  }

  /** A report is taken for a claimed action, of one to 480 minutes. It completes that row. The
      two outcomes that harm freeze the row's channel and block the person it was for; no other
      outcome freezes or blocks anything. */
  lemma CompletionIsExact(r: Registry, id: nat, outcome: Outcome, minutes: int)
    ensures Complete(r, id, outcome, minutes).Ok? <==>
              1 <= minutes <= 480 && id < |r.rows| && r.rows[id].status == Claimed
    ensures Complete(r, id, outcome, minutes).Ok? ==>
              var row := r.rows[id];
              Complete(r, id, outcome, minutes).value
              == r.(rows := r.rows[..id] + [row.(status := Completed)] + r.rows[id + 1..],
                    frozen := if Harms(outcome) then r.frozen + {row.channel} else r.frozen,
                    blocked := if Harms(outcome) && row.counterparty.Some? then r.blocked + {row.counterparty.value}
                               else r.blocked)
  {
    if id < |r.rows| {
      assert r.rows[id := r.rows[id].(status := Completed)]
          == r.rows[..id] + [r.rows[id].(status := Completed)] + r.rows[id + 1..];
    }
  }

  /** Only a claimed action is given up, and that frees nothing but its row. */
  lemma AbandonmentIsExact(r: Registry, id: nat)
    ensures Abandon(r, id).Ok? <==> id < |r.rows| && r.rows[id].status == Claimed
    ensures Abandon(r, id).Ok? ==>
              Abandon(r, id).value
              == r.(rows := r.rows[..id] + [r.rows[id].(status := Abandoned)] + r.rows[id + 1..])
  {
    if id < |r.rows| {
      assert r.rows[id := r.rows[id].(status := Abandoned)]
          == r.rows[..id] + [r.rows[id].(status := Abandoned)] + r.rows[id + 1..];
    }
  }

  /** Why a report or an abandonment is refused. */
  lemma ReportRefusals(r: Registry, id: nat, outcome: Outcome, minutes: int)
    ensures var c, d := Complete(r, id, outcome, minutes), Abandon(r, id);
            && (c == Err(BadMinutes) <==> minutes < 1 || minutes > 480)
            && (c == Err(NoSuchAction) <==> 1 <= minutes <= 480 && id >= |r.rows|)
            && (c == Err(NotClaimed) <==> 1 <= minutes <= 480 && id < |r.rows| && r.rows[id].status != Claimed)
            && (d == Err(NoSuchAction) <==> id >= |r.rows|)
            && (d == Err(NotClaimed) <==> id < |r.rows| && r.rows[id].status != Claimed)
  {}

  /** Acknowledging clears exactly a frozen channel that the program knows, and setting a flag moves
      that flag. */
  lemma ClearingIsExact(r: Registry, channel: Channel, flag: Flag, on: bool)
    ensures var c := Acknowledge(r, channel);
            && (c == Err(UnknownChannel) <==> channel == Unregistered)
            && (c == Err(NotFrozen) <==> channel != Unregistered && channel !in r.frozen)
            && (c.Ok? <==> channel != Unregistered && channel in r.frozen)
            && (c.Ok? ==> c.value == r.(frozen := c.value.frozen) && channel !in c.value.frozen
                          && c.value.frozen + {channel} == r.frozen)
    ensures var r' := Next(r, SetFlag(flag, on));
            && r' == r.(enabled := r'.enabled) && (flag in r'.enabled <==> on)
            && forall f :: f != flag ==> (f in r'.enabled <==> f in r.enabled)
  {
    hide CheckAction;
  }

  // ---- over every run ------------------------------------------------------------------------------

  lemma {:induction false} RunEndsWith(r: Registry, ops: seq<Op>)
    requires ops != []
    ensures Run(r, ops) == Next(Run(r, ops[..|ops| - 1]), ops[|ops| - 1])
    decreases |ops|
  {
    hide Next;
    var n := |ops| - 1;
    if n == 0 {
      assert ops[1..] == [];
    } else {
      RunEndsWith(Next(r, ops[0]), ops[1..]);
      assert ops[1..][..n - 1] == ops[..n][1..];
    }
  }

  /** A report of harm that is taken, on a row of this registry. */
  predicate ReportsHarm(r: Registry, op: Op) {
    && op.DoComplete? && Harms(op.outcome) && 1 <= op.minutes <= 480
    && op.id < |r.rows| && r.rows[op.id].status == Claimed
  }

  predicate HarmsPerson(r: Registry, op: Op, key: string) {
    ReportsHarm(r, op) && r.rows[op.id].counterparty == Some(key)
  }

  predicate HarmsChannel(r: Registry, op: Op, channel: Channel) {
    ReportsHarm(r, op) && r.rows[op.id].channel == channel
  }

  lemma HarmStep(r: Registry, op: Op, key: string, channel: Channel)
    requires channel in r.frozen ==> SpecOf(channel).Some?
    ensures key in Next(r, op).blocked <==> key in r.blocked || HarmsPerson(r, op, key)
    ensures channel in Next(r, op).frozen <==>
              (channel in r.frozen && op != DoAcknowledge(channel)) || HarmsChannel(r, op, channel)
  {
    hide CheckAction;
    if op.DoComplete? {
      CompletionIsExact(r, op.id, op.outcome, op.minutes);
      hide Complete;
    }
  }

  ghost predicate EverHarmed(ops: seq<Op>, key: string) {
    exists k :: 0 <= k < |ops| && HarmsPerson(Run(EMPTY, ops[..k]), ops[k], key)
  }

  /** Harm on the channel that nobody has acknowledged since. */
  ghost predicate HarmStands(ops: seq<Op>, k: nat, channel: Channel)
    requires k < |ops|
  {
    HarmsChannel(Run(EMPTY, ops[..k]), ops[k], channel) && DoAcknowledge(channel) !in ops[k + 1..]
  }

  ghost predicate AnyHarmStands(ops: seq<Op>, channel: Channel) {
    exists k: nat :: k < |ops| && HarmStands(ops, k, channel)
  }

  lemma HarmedLast(ops: seq<Op>, key: string)
    requires ops != []
    ensures var n := |ops| - 1;
            EverHarmed(ops, key) <==> EverHarmed(ops[..n], key) || HarmsPerson(Run(EMPTY, ops[..n]), ops[n], key)
  {
    hide HarmsPerson, Run;
    var n := |ops| - 1;
    if EverHarmed(ops[..n], key) {
      var k :| 0 <= k < n && HarmsPerson(Run(EMPTY, ops[..n][..k]), ops[..n][k], key);
      assert ops[..n][..k] == ops[..k] && ops[..n][k] == ops[k];
    }
    if EverHarmed(ops, key) {
      var k :| 0 <= k < |ops| && HarmsPerson(Run(EMPTY, ops[..k]), ops[k], key);
      if k < n { assert ops[..n][..k] == ops[..k] && ops[..n][k] == ops[k]; }
    }
  }

  lemma HarmStandsLast(ops: seq<Op>, channel: Channel)
    requires ops != []
    ensures var n := |ops| - 1;
            AnyHarmStands(ops, channel)
            <==> (AnyHarmStands(ops[..n], channel) && ops[n] != DoAcknowledge(channel))
                 || HarmsChannel(Run(EMPTY, ops[..n]), ops[n], channel)
  {
    hide HarmsChannel, Run;
    var n := |ops| - 1;
    var ack := DoAcknowledge(channel);
    forall k: nat | k < n
      ensures HarmStands(ops, k, channel) <==> HarmStands(ops[..n], k, channel) && ops[n] != ack
    {
      assert ops[..n][..k] == ops[..k] && ops[..n][k] == ops[k];
      assert ops[k + 1..] == ops[..n][k + 1..] + [ops[n]];
    }
    assert ops[n + 1..] == [];
    assert HarmStands(ops, n, channel) <==> HarmsChannel(Run(EMPTY, ops[..n]), ops[n], channel);
    if AnyHarmStands(ops, channel) {
      var k: nat :| k < |ops| && HarmStands(ops, k, channel);
    }
    if AnyHarmStands(ops[..n], channel) && ops[n] != ack {
      var k: nat :| k < n && HarmStands(ops[..n], k, channel);
      assert HarmStands(ops, k, channel);
    }
  }

  lemma FrozenIsRegistered(ops: seq<Op>, channel: Channel)
    requires ops != [] && HarmsChannel(Run(EMPTY, ops[..|ops| - 1]), ops[|ops| - 1], channel)
    ensures SpecOf(channel).Some?
  {
    RunKeepsApart(EMPTY, ops[..|ops| - 1]);
    var rows := Run(EMPTY, ops[..|ops| - 1]).rows;
    assert WellKeyed(rows[ops[|ops| - 1].id]);
  }

  /** In every run: a person is blocked exactly when some action that was for them was reported as
      harm, at any time; a channel is frozen exactly when harm was reported on it and nobody has
      acknowledged it since. */
  lemma {:induction false} HarmIsExact(ops: seq<Op>, key: string, channel: Channel)
    ensures key in Run(EMPTY, ops).blocked <==> EverHarmed(ops, key)
    ensures channel in Run(EMPTY, ops).frozen <==> AnyHarmStands(ops, channel)
    ensures channel in Run(EMPTY, ops).frozen ==> SpecOf(channel).Some?
    decreases |ops|
  {
    if ops == [] {
    } else {
      hide Next, Run, HarmsPerson, HarmsChannel, EverHarmed, AnyHarmStands;
      var n := |ops| - 1;
      HarmIsExact(ops[..n], key, channel);
      RunEndsWith(EMPTY, ops);
      HarmStep(Run(EMPTY, ops[..n]), ops[n], key, channel);
      HarmedLast(ops, key);
      HarmStandsLast(ops, channel);
      if HarmsChannel(Run(EMPTY, ops[..n]), ops[n], channel) { FrozenIsRegistered(ops, channel); }
    }
  }

  /** One complaint, or one request to stop: from then on no new row is ever for that person,
      acknowledged or not, and none is on that channel until it is acknowledged. */
  lemma DamageHolds(r: Registry, id: nat, outcome: Outcome, minutes: int, ops: seq<Op>)
    requires outcome == Complaint || outcome == AskedToStop
    requires Complete(r, id, outcome, minutes).Ok?
    ensures var row := r.rows[id];
            var after := Run(Complete(r, id, outcome, minutes).value, ops);
            && (row.counterparty.Some? ==> NoneTo(after.rows, |r.rows|, row.counterparty.value))
            && (DoAcknowledge(row.channel) !in ops ==> NoneOn(after.rows, |r.rows|, row.channel))
  {
    CompletionIsExact(r, id, outcome, minutes);
    var row := r.rows[id];
    var damaged := Complete(r, id, outcome, minutes).value;
    if row.counterparty.Some? {
      BlockedForEver(damaged, ops, row.counterparty.value, |r.rows|);
    }
    if DoAcknowledge(row.channel) !in ops {
      FrozenUntilAcknowledged(damaged, ops, row.channel, |r.rows|);
    }
  }

  /** And any other report leaves every channel and every person as they were. */
  lemma OtherOutcomesHarmNobody(r: Registry, id: nat, outcome: Outcome, minutes: int)
    requires outcome != Complaint && outcome != AskedToStop && Complete(r, id, outcome, minutes).Ok?
    ensures var r' := Complete(r, id, outcome, minutes).value; r'.frozen == r.frozen && r'.blocked == r.blocked
  {}

  // ---- grants and flags ------------------------------------------------------------------------------

  ghost predicate UsedByARow(r: Registry, grant: nat) {
    exists i :: 0 <= i < |r.rows| && r.rows[i].grant == grant
  }

  lemma UsedStep(r: Registry, op: Op, grant: nat)
    requires grant in r.consumed <==> UsedByARow(r, grant)
    ensures grant in Next(r, op).consumed <==> UsedByARow(Next(r, op), grant)
  {
    hide CheckAction;
    var r' := Next(r, op);
    NextSettles(r, op);
    if |r'.rows| > |r.rows| {
      assert r'.rows[|r.rows|].grant == op.holder.grant;
    }
    if UsedByARow(r, grant) {
      var i :| 0 <= i < |r.rows| && r.rows[i].grant == grant;
      assert Settles(r.rows[i], r'.rows[i]);
    }
    if UsedByARow(r', grant) {
      var i :| 0 <= i < |r'.rows| && r'.rows[i].grant == grant;
      if i < |r.rows| { assert Settles(r.rows[i], r'.rows[i]); }
    }
  }

  /** In every run the grants used up are exactly those that some row was claimed on. */
  lemma {:induction false} UsedExactlyByRows(r: Registry, ops: seq<Op>, grant: nat)
    requires grant in r.consumed <==> UsedByARow(r, grant)
    ensures grant in Run(r, ops).consumed <==> UsedByARow(Run(r, ops), grant)
    decreases |ops|
  {
    if ops == [] {
    } else {
      UsedStep(r, ops[0], grant);
      hide Next, UsedByARow;
      UsedExactlyByRows(Next(r, ops[0]), ops[1..], grant);
    }
  }
}
