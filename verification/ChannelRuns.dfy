/**
 The channel registry over whole runs. Nothing below assumes that time moves forward: each
 claim is checked against every standing row, and rows only ever leave the counts.
 */
module ChannelRuns {
  import opened Basics
  import opened Channels

  // ---- what a successful claim proved ------------------------------------------------------

  predicate HasTarget(a: Ask, spec: Spec, key: string) {
    Supplied(a, spec.kind) == Named(key) && (spec.kind != Counterparty ==> a.counterparty == NotGiven)
  }

  /** Everything that must hold for an action to go out, said without an order of checks. */
  ghost predicate Allowed(r: Registry, a: Ask, spec: Spec, key: string, founder: nat, now: int) {
    var since := now - CONTACT_WINDOW_SECONDS;
    && SpecOf(a.channel) == Some(spec) && HasTarget(a, spec, key)
    && spec.flag in r.enabled && a.channel !in r.frozen
    && (spec.kind == Counterparty ==> key !in r.blocked)
    && (forall row :: row in r.rows && Reaches(row, spec.kind, key, since) ==>
          && row.founder == founder
          && (spec.kind == Counterparty ==> row.channel != a.channel)
          && (spec.kind != Counterparty && a.artifact.Some? && row.channel == a.channel ==> row.artifact != a.artifact))
    && RecentCount(r.rows, a.channel, since) < spec.cap
    && OpenCount(r.rows, a.channel) < spec.openCap
  }

  /** The grounds of a claim: a grant not yet used, and everything outside the registry. */
  predicate Grounded(r: Registry, w: Holder) {
    w.grant !in r.consumed && w.granted && w.mayAct && w.deliverable && w.funded
  }

  /** A claim goes through exactly when it is grounded and allowed, whatever order the checks
      run in. */
  lemma ClaimIsExact(r: Registry, a: Ask, w: Holder, now: int)
    ensures Claim(r, a, w, now).Ok? <==> Grounded(r, w) && exists spec, key :: Allowed(r, a, spec, key, w.founder, now)
  {
    var since := now - CONTACT_WINDOW_SECONDS;
    if Claim(r, a, w, now).Ok? {
      var spec := SpecOf(a.channel).value;
      var key := TargetOf(spec, a).value;
      forall row | row in r.rows && Reaches(row, spec.kind, key, since)
        ensures row.founder == w.founder
        ensures spec.kind == Counterparty ==> row.channel != a.channel
        ensures spec.kind != Counterparty && a.artifact.Some? && row.channel == a.channel ==> row.artifact != a.artifact
      {
        var i :| 0 <= i < |r.rows| && r.rows[i] == row;
        assert Reaches(r.rows[i], spec.kind, key, since);
      }
      assert Allowed(r, a, spec, key, w.founder, now);
    }
    if Grounded(r, w) && exists spec, key :: Allowed(r, a, spec, key, w.founder, now) {
      var spec, key :| Allowed(r, a, spec, key, w.founder, now);
      assert TargetOf(spec, a) == Ok(key);
      assert forall i :: 0 <= i < |r.rows| ==> r.rows[i] in r.rows;
    }
  }

  /** An operator who names no lineage gets the strictest answer: what is allowed then is
      allowed to every lineage, and a channel that collides on a target answers nobody. */
  lemma UnknownLineageIsStrictest(r: Registry, a: Ask, founder: nat, now: int)
    requires CheckAction(r, a, None, now) == None
    ensures CheckAction(r, a, Some(founder), now) == None
    ensures SpecOf(a.channel).Some? && SpecOf(a.channel).value.kind == Counterparty
  {}

  // ---- caps --------------------------------------------------------------------------------------

  /** Standing rows on a channel claimed inside one window starting at `from`. */
  predicate InWindow(row: Row, channel: Channel, from: int) {
    row.channel == channel && row.status != Abandoned && from <= row.claimedAt <= from + CONTACT_WINDOW_SECONDS
  }

  function WindowCount(rows: seq<Row>, channel: Channel, from: int): nat {
    if rows == [] then 0
    else
      WindowCount(rows[..|rows| - 1], channel, from) + if InWindow(rows[|rows| - 1], channel, from) then 1 else 0
  }

  lemma {:induction false} WindowIsRecent(rows: seq<Row>, channel: Channel, from: int, since: int)
    requires since <= from
    ensures WindowCount(rows, channel, from) <= RecentCount(rows, channel, since)
  {
    if rows == [] {
    } else {
      WindowIsRecent(rows[..|rows| - 1], channel, from, since);
    }
  }

  /** A row may be completed or abandoned and is otherwise never changed. */
  predicate Settles(row: Row, row': Row) {
    row'.(status := row.status) == row && (row'.status == row.status || row.status == Claimed)
  }

  ghost predicate RowsSettle(rows: seq<Row>, rows': seq<Row>) {
    |rows| <= |rows'| && forall i :: 0 <= i < |rows| ==> Settles(rows[i], rows'[i])
  }

  lemma {:induction false} SettledCountsShrink(rows: seq<Row>, rows': seq<Row>, channel: Channel, from: int)
    requires |rows| == |rows'| && RowsSettle(rows, rows')
    ensures WindowCount(rows', channel, from) <= WindowCount(rows, channel, from)
    ensures OpenCount(rows', channel) <= OpenCount(rows, channel)
  {
    if rows == [] {
    } else {
      var n := |rows| - 1;
      assert Settles(rows[n], rows'[n]);
      assert RowsSettle(rows[..n], rows'[..n]) by {
        forall i | 0 <= i < n ensures Settles(rows[..n][i], rows'[..n][i]) {
          assert Settles(rows[i], rows'[i]);
        }
      }
      SettledCountsShrink(rows[..n], rows'[..n], channel, from);
    }
  }

  ghost predicate WithinCaps(r: Registry, channel: Channel, spec: Spec, from: int) {
    WindowCount(r.rows, channel, from) <= spec.cap && OpenCount(r.rows, channel) <= spec.openCap
  }

  lemma NextSettles(r: Registry, op: Op)
    ensures RowsSettle(r.rows, Next(r, op).rows)
    ensures |Next(r, op).rows| > |r.rows| ==>
              && op.DoClaim? && Claim(r, op.ask, op.holder, op.now).Ok?
              && Next(r, op).rows == r.rows + [NewRow(op.ask, op.holder, op.now)]
  {}

  lemma NextKeepsCaps(r: Registry, op: Op, channel: Channel, spec: Spec, from: int)
    requires SpecOf(channel) == Some(spec) && WithinCaps(r, channel, spec, from)
    ensures WithinCaps(Next(r, op), channel, spec, from)
  {
    var r' := Next(r, op);
    NextSettles(r, op);
    if |r'.rows| == |r.rows| {
      SettledCountsShrink(r.rows, r'.rows, channel, from);
    } else {
      var row := NewRow(op.ask, op.holder, op.now);
      assert r'.rows[..|r.rows|] == r.rows && r'.rows[|r.rows|] == row;
      if op.ask.channel == channel {
        var since := if op.now - CONTACT_WINDOW_SECONDS <= from then op.now - CONTACT_WINDOW_SECONDS else from;
        WindowIsRecent(r.rows, channel, from, since);
      }
    }
  }

  lemma {:induction false} RunKeepsCaps(r: Registry, ops: seq<Op>, channel: Channel, spec: Spec, from: int)
    requires SpecOf(channel) == Some(spec) && WithinCaps(r, channel, spec, from)
    ensures WithinCaps(Run(r, ops), channel, spec, from)
    decreases |ops|
  {
    if ops == [] {
    } else {
      NextKeepsCaps(r, ops[0], channel, spec, from);
      RunKeepsCaps(Next(r, ops[0]), ops[1..], channel, spec, from);
    }
  }

  /** In every run and at every moment of it, each channel stays within both of its caps: in
      every window of 24 hours, wherever it starts, and on unfinished claims. */
  lemma CapsHold(ops: seq<Op>, channel: Channel, spec: Spec, from: int)
    requires SpecOf(channel) == Some(spec)
    ensures WindowCount(Run(EMPTY, ops).rows, channel, from) <= spec.cap
    ensures OpenCount(Run(EMPTY, ops).rows, channel) <= spec.openCap
  {
    RunKeepsCaps(EMPTY, ops, channel, spec, from);
  }

  // ---- collisions ------------------------------------------------------------------------------------

  ghost predicate KindIs(channel: Channel, kind: TargetKind) {
    SpecOf(channel).Some? && SpecOf(channel).value.kind == kind
  }

  /** The value of the key a row's own channel collides on. */
  ghost predicate KeyedOn(row: Row, kind: TargetKind, key: string) {
    KindIs(row.channel, kind) && Column(row, kind) == Some(key)
  }

  /** What `claim` established between a row and each row before it. */
  ghost predicate NoCollision(earlier: Row, later: Row) {
    forall kind, key {:trigger KeyedOn(later, kind, key)} ::
      KeyedOn(later, kind, key) && Reaches(earlier, kind, key, later.claimedAt - CONTACT_WINDOW_SECONDS) ==>
        && earlier.founder == later.founder
        && (kind == Counterparty ==> earlier.channel != later.channel)
        && (kind != Counterparty && earlier.channel == later.channel && later.artifact.Some? ==>
              earlier.artifact != later.artifact)
  }

  ghost predicate NoneCollide(rows: seq<Row>) {
    forall i, j :: 0 <= i < j < |rows| && rows[j].status != Abandoned ==> NoCollision(rows[i], rows[j])
  }

  /** Every row has its channel's target, and only an addressed channel has a counterparty. */
  ghost predicate WellKeyed(row: Row) {
    && SpecOf(row.channel).Some?
    && Column(row, SpecOf(row.channel).value.kind).Some?
    && (row.counterparty.Some? ==> KindIs(row.channel, Counterparty))
  }

  ghost predicate AllWellKeyed(rows: seq<Row>) {
    forall i :: 0 <= i < |rows| ==> WellKeyed(rows[i])
  }

  lemma ClaimedCollidesWithNone(r: Registry, a: Ask, w: Holder, now: int, i: nat)
    requires Claim(r, a, w, now).Ok? && i < |r.rows|
    ensures NoCollision(r.rows[i], NewRow(a, w, now)) && WellKeyed(NewRow(a, w, now))
  {
    var row, earlier := NewRow(a, w, now), r.rows[i];
    var spec := SpecOf(a.channel).value;
    var target := TargetOf(spec, a).value;
    forall kind, key | KeyedOn(row, kind, key) && Reaches(earlier, kind, key, now - CONTACT_WINDOW_SECONDS)
      ensures earlier.founder == w.founder
      ensures kind == Counterparty ==> earlier.channel != row.channel
      ensures kind != Counterparty && earlier.channel == row.channel && row.artifact.Some? ==>
              earlier.artifact != row.artifact
    {
      assert kind == spec.kind && key == target;
    }
  }

  lemma SettledStillApart(rows: seq<Row>, rows': seq<Row>)
    requires |rows| == |rows'| && RowsSettle(rows, rows') && NoneCollide(rows) && AllWellKeyed(rows)
    ensures NoneCollide(rows') && AllWellKeyed(rows')
  {
    forall i, j | 0 <= i < j < |rows'| && rows'[j].status != Abandoned ensures NoCollision(rows'[i], rows'[j]) {
      assert Settles(rows[i], rows'[i]) && Settles(rows[j], rows'[j]);
      assert NoCollision(rows[i], rows[j]);
      forall kind, key | KeyedOn(rows'[j], kind, key)
                         && Reaches(rows'[i], kind, key, rows'[j].claimedAt - CONTACT_WINDOW_SECONDS)
        ensures KeyedOn(rows[j], kind, key) && Reaches(rows[i], kind, key, rows[j].claimedAt - CONTACT_WINDOW_SECONDS)
      {}
    }
    forall i | 0 <= i < |rows'| ensures WellKeyed(rows'[i]) {
      assert Settles(rows[i], rows'[i]) && WellKeyed(rows[i]);
    }
  }

  lemma NextKeepsApart(r: Registry, op: Op)
    requires NoneCollide(r.rows) && AllWellKeyed(r.rows)
    ensures NoneCollide(Next(r, op).rows) && AllWellKeyed(Next(r, op).rows)
  {
    var r' := Next(r, op);
    NextSettles(r, op);
    if |r'.rows| == |r.rows| {
      SettledStillApart(r.rows, r'.rows);
    } else {
      var row := NewRow(op.ask, op.holder, op.now);
      forall i | 0 <= i < |r.rows| ensures NoCollision(r.rows[i], row) {
        ClaimedCollidesWithNone(r, op.ask, op.holder, op.now, i);
      }
      if r.rows == [] { FirstIsWellKeyed(r, op.ask, op.holder, op.now); }
      else { ClaimedCollidesWithNone(r, op.ask, op.holder, op.now, 0); }
    }
  }

  lemma FirstIsWellKeyed(r: Registry, a: Ask, w: Holder, now: int)
    requires Claim(r, a, w, now).Ok?
    ensures WellKeyed(NewRow(a, w, now))
  {
    var spec := SpecOf(a.channel).value;
    assert TargetOf(spec, a).Ok?;
  }

  lemma {:induction false} RunKeepsApart(r: Registry, ops: seq<Op>)
    requires NoneCollide(r.rows) && AllWellKeyed(r.rows)
    ensures NoneCollide(Run(r, ops).rows) && AllWellKeyed(Run(r, ops).rows)
    decreases |ops|
  {
    if ops == [] {
    } else {
      NextKeepsApart(r, ops[0]);
      RunKeepsApart(Next(r, ops[0]), ops[1..]);
    }
  }

  ghost predicate Close(a: Row, b: Row) {
    -CONTACT_WINDOW_SECONDS <= a.claimedAt - b.claimedAt <= CONTACT_WINDOW_SECONDS
  }

  /** One person is never contacted twice on one channel within a window, whoever asks, and
      never by two lineages on any channels. */
  lemma ContactsAreApart(ops: seq<Op>, i: nat, j: nat)
    requires i < |Run(EMPTY, ops).rows| && j < |Run(EMPTY, ops).rows| && i != j
    requires var rows := Run(EMPTY, ops).rows;
             && rows[i].status != Abandoned && rows[j].status != Abandoned
             && rows[i].counterparty.Some? && rows[i].counterparty == rows[j].counterparty
             && Close(rows[i], rows[j])
    ensures var rows := Run(EMPTY, ops).rows;
            rows[i].channel != rows[j].channel && rows[i].founder == rows[j].founder
  {
    RunKeepsApart(EMPTY, ops);
    var rows := Run(EMPTY, ops).rows;
    var early, late := if i < j then i else j, if i < j then j else i;
    assert WellKeyed(rows[early]) && WellKeyed(rows[late]);
    assert NoCollision(rows[early], rows[late]);
    assert KeyedOn(rows[late], Counterparty, rows[late].counterparty.value);
  }

  /** Since only one channel has a counterparty, contacts with one person are a window apart. */
  lemma OnePersonOneContact(ops: seq<Op>, i: nat, j: nat)
    requires i < |Run(EMPTY, ops).rows| && j < |Run(EMPTY, ops).rows| && i != j
    requires var rows := Run(EMPTY, ops).rows;
             && rows[i].status != Abandoned && rows[j].status != Abandoned
             && rows[i].counterparty.Some? && rows[i].counterparty == rows[j].counterparty
    ensures var rows := Run(EMPTY, ops).rows; !Close(rows[i], rows[j])
  {
    var rows := Run(EMPTY, ops).rows;
    RunKeepsApart(EMPTY, ops);
    assert WellKeyed(rows[i]) && WellKeyed(rows[j]);
    if Close(rows[i], rows[j]) {
      ContactsAreApart(ops, i, j);
      assert false;
    }
  }

  /** On one channel, one target within one window belongs to one lineage, and the same
      artifact never goes to it twice. */
  lemma TargetsAreApart(ops: seq<Op>, i: nat, j: nat, kind: TargetKind, key: string)
    requires i < |Run(EMPTY, ops).rows| && j < |Run(EMPTY, ops).rows| && i != j
    requires var rows := Run(EMPTY, ops).rows;
             && rows[i].status != Abandoned && rows[j].status != Abandoned
             && KeyedOn(rows[i], kind, key) && KeyedOn(rows[j], kind, key) && Close(rows[i], rows[j])
    ensures var rows := Run(EMPTY, ops).rows;
            && rows[i].founder == rows[j].founder
            && (rows[i].artifact.Some? ==> rows[i].artifact != rows[j].artifact)
  {
    RunKeepsApart(EMPTY, ops);
    var rows := Run(EMPTY, ops).rows;
    var early, late := if i < j then i else j, if i < j then j else i;
    assert NoCollision(rows[early], rows[late]);
    assert KeyedOn(rows[late], kind, key);
  }

  // ---- which columns a channel guards --------------------------------------------------------------------

  /** In every run, across all channels: rows standing on the key a later row's own channel
      collides on, within its window, are that row's lineage. */
  lemma KeysKeepOneLineage(ops: seq<Op>, i: nat, j: nat, kind: TargetKind, key: string)
    requires i < j < |Run(EMPTY, ops).rows|
    requires var rows := Run(EMPTY, ops).rows;
             && rows[j].status != Abandoned && KeyedOn(rows[j], kind, key)
             && Reaches(rows[i], kind, key, rows[j].claimedAt - CONTACT_WINDOW_SECONDS)
    ensures var rows := Run(EMPTY, ops).rows; rows[i].founder == rows[j].founder
  {
    RunKeepsApart(EMPTY, ops);
    var rows := Run(EMPTY, ops).rows;
    assert NoCollision(rows[i], rows[j]);
  }

  function WithColumn(a: Ask, kind: TargetKind, given: Given): Ask {
    match kind
    case Counterparty => a.(counterparty := given)
    case DomainName => a.(domain := given)
    case PlatformAccount => a.(account := given)
  }

  /** A domain or account that is not the channel's own target decides nothing. */
  lemma OtherColumnsAreIgnored(r: Registry, a: Ask, founder: Option<nat>, now: int, kind: TargetKind, given: Given)
    requires kind != Counterparty && !KindIs(a.channel, kind)
    ensures CheckAction(r, WithColumn(a, kind, given), founder, now) == CheckAction(r, a, founder, now)
  {
    if SpecOf(a.channel).Some? {
      var spec := SpecOf(a.channel).value;
      assert TargetOf(spec, WithColumn(a, kind, given)) == TargetOf(spec, a);
    }
  }

  /** A claim that names, in column `kind`, a key another lineage stands on is refused. */
  ghost predicate SplitIsRefused(r: Registry, a: Ask, w: Holder, now: int, kind: TargetKind, key: string) {
    Supplied(a, kind) == Named(key) && SiblingReached(r.rows, kind, key, now - CONTACT_WINDOW_SECONDS, w.founder) ==>
      Claim(r, a, w, now).Err?
  }

  /** In every reachable registry this channel keeps column `kind` to one lineage a key. */
  ghost predicate Guards(channel: Channel, kind: TargetKind) {
    forall ops: seq<Op>, a: Ask, w: Holder, now: int, key: string
      {:trigger SplitIsRefused(Run(EMPTY, ops), a, w, now, kind, key)} ::
      a.channel == channel ==> SplitIsRefused(Run(EMPTY, ops), a, w, now, kind, key)
  }

  /** Exactly which columns a channel guards: the one it collides on, and the counterparty, which
      a channel that collides on something else does not take at all. */
  lemma GuardsExactly(channel: Channel, kind: TargetKind)
    ensures Guards(channel, kind) <==> SpecOf(channel).None? || kind == Counterparty || KindIs(channel, kind)
  {
    if SpecOf(channel).None? || kind == Counterparty || KindIs(channel, kind) {
      forall ops: seq<Op>, a: Ask, w: Holder, now: int, key: string | a.channel == channel
        ensures SplitIsRefused(Run(EMPTY, ops), a, w, now, kind, key)
      {
        OwnColumnIsGuarded(Run(EMPTY, ops), a, w, now, kind, key);
      }
    } else {
      var ops := OneOn(kind, 0);
      var r := Run(EMPTY, ops);
      OneRow(kind, 0);
      SecondGoesThrough(r, channel, kind, 0);
      assert !SplitIsRefused(r, NamingBoth(channel, kind), SECOND, 0, kind, "k");
    }
  }

  lemma OwnColumnIsGuarded(r: Registry, a: Ask, w: Holder, now: int, kind: TargetKind, key: string)
    requires SpecOf(a.channel).None? || kind == Counterparty || KindIs(a.channel, kind)
    ensures SplitIsRefused(r, a, w, now, kind, key)
  {}

  const FIRST := Holder(1, 1, true, true, true, true)
  const SECOND := Holder(2, 2, true, true, true, true)
  const READY := Registry([], {}, {}, {ExternalMessage, RealCommerce, ExternalPublish}, {})

  function OwnerOf(kind: TargetKind): Channel {
    match kind
    case Counterparty => Email
    case DomainName => WebPublish
    case PlatformAccount => MarketplaceListing
  }

  /** A claim of the key "k" on the channel that collides on column `kind`. */
  function Naming(kind: TargetKind): Ask {
    WithColumn(Ask(OwnerOf(kind), NotGiven, NotGiven, NotGiven, None), kind, Named("k"))
  }

  /** A claim on `channel` of its own target "t" that names "k" in column `kind` beside it. */
  function NamingBoth(channel: Channel, kind: TargetKind): Ask
    requires SpecOf(channel).Some?
  {
    WithColumn(WithColumn(Ask(channel, NotGiven, NotGiven, NotGiven, None), SpecOf(channel).value.kind, Named("t")),
               kind, Named("k"))
  }

  function OneOn(kind: TargetKind, now: int): seq<Op> {
    [SetFlag(ExternalMessage, true), SetFlag(RealCommerce, true), SetFlag(ExternalPublish, true),
     DoClaim(Naming(kind), FIRST, now)]
  }

  lemma {:induction false} NoneOnChannel(rows: seq<Row>, channel: Channel, since: int)
    requires forall row :: row in rows ==> row.channel != channel
    ensures RecentCount(rows, channel, since) == 0 && OpenCount(rows, channel) == 0
  {
    if rows == [] {
    } else {
      var n := |rows| - 1;
      assert rows[n] in rows && forall row :: row in rows[..n] ==> row in rows;
      NoneOnChannel(rows[..n], channel, since);
    }
  }

  /** On a channel nobody has used, a claim is refused only for its own target. */
  lemma QuietChannelAllows(r: Registry, a: Ask, spec: Spec, key: string, founder: nat, now: int)
    requires SpecOf(a.channel) == Some(spec) && HasTarget(a, spec, key)
    requires spec.flag in r.enabled && a.channel !in r.frozen && key !in r.blocked
    requires forall row :: row in r.rows ==> row.channel != a.channel && Column(row, spec.kind) != Some(key)
    ensures CheckAction(r, a, Some(founder), now) == None
  {
    NoneOnChannel(r.rows, a.channel, now - CONTACT_WINDOW_SECONDS);
    assert TargetOf(spec, a) == Ok(key);
    assert forall i :: 0 <= i < |r.rows| ==> r.rows[i] in r.rows;
  }

  lemma OneRow(kind: TargetKind, now: int)
    requires kind != Counterparty
    ensures Run(EMPTY, OneOn(kind, now)).rows == [NewRow(Naming(kind), FIRST, now)]
    ensures Run(EMPTY, OneOn(kind, now)).enabled == READY.enabled && Run(EMPTY, OneOn(kind, now)).consumed == {1}
    ensures Run(EMPTY, OneOn(kind, now)).frozen == {} && Run(EMPTY, OneOn(kind, now)).blocked == {}
  {
    var ops := OneOn(kind, now);
    QuietChannelAllows(READY, Naming(kind), SpecOf(OwnerOf(kind)).value, "k", 1, now);
    assert READY.rows + [NewRow(Naming(kind), FIRST, now)] == [NewRow(Naming(kind), FIRST, now)];
    var after := Next(READY, ops[3]);
    FlagsOn(ops[3]);
  }

  lemma FlagsOn(op: Op)
    ensures Run(EMPTY, [SetFlag(ExternalMessage, true), SetFlag(RealCommerce, true), SetFlag(ExternalPublish, true),
                        op])
         == Next(READY, op)
  {
    var a, b, c := SetFlag(ExternalMessage, true), SetFlag(RealCommerce, true), SetFlag(ExternalPublish, true);
    assert [a, b, c, op][1..] == [b, c, op] && [b, c, op][1..] == [c, op] && [c, op][1..] == [op] && [op][1..] == [];
    var r1 := Next(EMPTY, a);
    var r2 := Next(r1, b);
    assert Next(r2, c) == READY;
    hide Next;
    assert Run(EMPTY, [a, b, c, op]) == Run(r1, [b, c, op]);
    assert Run(r1, [b, c, op]) == Run(r2, [c, op]);
    assert Run(r2, [c, op]) == Run(READY, [op]);
    assert Run(READY, [op]) == Next(READY, op);
  }

  lemma ReadyIsReachable()
    ensures READY == Run(EMPTY, [SetFlag(ExternalMessage, true), SetFlag(RealCommerce, true),
                                 SetFlag(ExternalPublish, true)])
  {
    var a, b, c := SetFlag(ExternalMessage, true), SetFlag(RealCommerce, true), SetFlag(ExternalPublish, true);
    assert [a, b, c][1..] == [b, c] && [b, c][1..] == [c] && [c][1..] == [];
    var r1 := Next(EMPTY, a);
    var r2 := Next(r1, b);
    assert Next(r2, c) == READY;
    hide Next;
    assert Run(EMPTY, [a, b, c]) == Run(r1, [b, c]);
    assert Run(r1, [b, c]) == Run(r2, [c]);
    assert Run(r2, [c]) == Run(READY, []);
  }

  lemma SecondGoesThrough(r: Registry, channel: Channel, kind: TargetKind, now: int)
    requires SpecOf(channel).Some? && kind != Counterparty && !KindIs(channel, kind)
    requires r.rows == [NewRow(Naming(kind), FIRST, now)] && r.enabled == READY.enabled
    requires r.frozen == {} && r.blocked == {} && r.consumed == {1}
    ensures Claim(r, NamingBoth(channel, kind), SECOND, now).Ok?
    ensures SiblingReached(r.rows, kind, "k", now - CONTACT_WINDOW_SECONDS, 2)
    ensures Supplied(NamingBoth(channel, kind), kind) == Named("k")
  {
    var row := NewRow(Naming(kind), FIRST, now);
    assert Reaches(r.rows[0], kind, "k", now - CONTACT_WINDOW_SECONDS) && r.rows[0].founder == 1;
    QuietChannelAllows(r, NamingBoth(channel, kind), SpecOf(channel).value, "t", 2, now);
  }

  /** Across channels the check looks one way only. A page on a domain stops no other lineage's
      email naming that domain at the same moment; the email stops the page. */
  lemma DomainsCollideOneWay(now: int)
    ensures READY == Run(EMPTY, [SetFlag(ExternalMessage, true), SetFlag(RealCommerce, true),
                                 SetFlag(ExternalPublish, true)])
    ensures var page, mail := Naming(DomainName), NamingBoth(Email, DomainName);
            && Claim(READY, page, FIRST, now).Ok? && Claim(READY, mail, SECOND, now).Ok?
            && Claim(Claim(READY, page, FIRST, now).value, mail, SECOND, now).Ok?
            && Claim(Claim(READY, mail, SECOND, now).value, page, FIRST, now) == Err(SiblingCollision)
  {
    ReadyIsReachable();
    var page, mail := Naming(DomainName), NamingBoth(Email, DomainName);
    QuietChannelAllows(READY, page, SpecOf(WebPublish).value, "k", 1, now);
    QuietChannelAllows(READY, mail, SpecOf(Email).value, "t", 2, now);
    var paged, mailed := Claim(READY, page, FIRST, now).value, Claim(READY, mail, SECOND, now).value;
    assert paged.rows == [NewRow(page, FIRST, now)] && mailed.rows == [NewRow(mail, SECOND, now)];
    SecondGoesThrough(paged, Email, DomainName, now);
    assert Reaches(mailed.rows[0], DomainName, "k", now - CONTACT_WINDOW_SECONDS);
  }

  // ---- grants ------------------------------------------------------------------------------------------

  /** Each row used its own grant, and every grant a row used is used up. */
  ghost predicate GrantsUsedOnce(r: Registry) {
    && (forall i :: 0 <= i < |r.rows| ==> r.rows[i].grant in r.consumed)
    && (forall i, j :: 0 <= i < j < |r.rows| ==> r.rows[i].grant != r.rows[j].grant)
  }

  lemma NextUsesGrantsOnce(r: Registry, op: Op)
    requires GrantsUsedOnce(r)
    ensures GrantsUsedOnce(Next(r, op)) && r.consumed <= Next(r, op).consumed
  {
    hide CheckAction;
    NextSettles(r, op);
    var r' := Next(r, op);
    assert forall i :: 0 <= i < |r.rows| ==> r'.rows[i].grant == r.rows[i].grant by {
      forall i | 0 <= i < |r.rows| ensures r'.rows[i].grant == r.rows[i].grant {
        assert Settles(r.rows[i], r'.rows[i]);
      }
    }
  }

  lemma {:induction false} RunUsesGrantsOnce(r: Registry, ops: seq<Op>)
    requires GrantsUsedOnce(r)
    ensures GrantsUsedOnce(Run(r, ops)) && r.consumed <= Run(r, ops).consumed
    decreases |ops|
  {
    if ops == [] {
    } else {
      NextUsesGrantsOnce(r, ops[0]);
      RunUsesGrantsOnce(Next(r, ops[0]), ops[1..]);
    }
  }

  /** One grant, one action, for ever: a grant that claimed once is refused in every later state,
      the action completed or abandoned or not. */
  lemma OneGrantOneAction(before: seq<Op>, a: Ask, w: Holder, now: int, after: seq<Op>, a': Ask, w': Holder, now': int)
    requires Claim(Run(EMPTY, before), a, w, now).Ok? && w'.grant == w.grant
    ensures var r := Run(Claim(Run(EMPTY, before), a, w, now).value, after);
            GrantsUsedOnce(r) && Claim(r, a', w', now') == Err(GrantConsumed)
  {
    RunUsesGrantsOnce(EMPTY, before);
    var r := Run(EMPTY, before);
    NextUsesGrantsOnce(r, DoClaim(a, w, now));
    RunUsesGrantsOnce(Claim(r, a, w, now).value, after);
  }

  // ---- blocks and freezes -------------------------------------------------------------------------------

  /** No row added since `from` is for this person. */
  ghost predicate NoneTo(rows: seq<Row>, from: nat, key: string) {
    forall i :: from <= i < |rows| ==> rows[i].counterparty != Some(key)
  }

  lemma NextRespectsBlock(r: Registry, op: Op, key: string, from: nat)
    requires key in r.blocked && from <= |r.rows| && NoneTo(r.rows, from, key)
    ensures key in Next(r, op).blocked && from <= |Next(r, op).rows| && NoneTo(Next(r, op).rows, from, key)
  {
    var r' := Next(r, op);
    NextSettles(r, op);
    forall i | from <= i < |r'.rows| ensures r'.rows[i].counterparty != Some(key) {
      if i < |r.rows| {
        assert Settles(r.rows[i], r'.rows[i]);
      }
    }
  }

  /** A block is for ever: a blocked person never appears on a new row again. */
  lemma {:induction false} BlockedForEver(r: Registry, ops: seq<Op>, key: string, from: nat)
    requires key in r.blocked && from <= |r.rows| && NoneTo(r.rows, from, key)
    ensures key in Run(r, ops).blocked && NoneTo(Run(r, ops).rows, from, key)
    decreases |ops|
  {
    if ops == [] {
    } else {
      NextRespectsBlock(r, ops[0], key, from);
      BlockedForEver(Next(r, ops[0]), ops[1..], key, from);
    }
  }

  ghost predicate NoneOn(rows: seq<Row>, from: nat, channel: Channel) {
    forall i :: from <= i < |rows| ==> rows[i].channel != channel
  }

  lemma NextRespectsFreeze(r: Registry, op: Op, channel: Channel, from: nat)
    requires channel in r.frozen && op != DoAcknowledge(channel) && from <= |r.rows| && NoneOn(r.rows, from, channel)
    ensures channel in Next(r, op).frozen && from <= |Next(r, op).rows| && NoneOn(Next(r, op).rows, from, channel)
  {
    var r' := Next(r, op);
    NextSettles(r, op);
    forall i | from <= i < |r'.rows| ensures r'.rows[i].channel != channel {
      if i < |r.rows| {
        assert Settles(r.rows[i], r'.rows[i]);
      }
    }
  }

  /** A frozen channel gains no row until a person acknowledges it. */
  lemma {:induction false} FrozenUntilAcknowledged(r: Registry, ops: seq<Op>, channel: Channel, from: nat)
    requires channel in r.frozen && DoAcknowledge(channel) !in ops && from <= |r.rows| && NoneOn(r.rows, from, channel)
    ensures channel in Run(r, ops).frozen && NoneOn(Run(r, ops).rows, from, channel)
    decreases |ops|
  {
    if ops == [] {
    } else {
      NextRespectsFreeze(r, ops[0], channel, from);
      FrozenUntilAcknowledged(Next(r, ops[0]), ops[1..], channel, from);
    }
  }
}
