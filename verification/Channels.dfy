/**
 The channel registry (src/mitosis/channel_registry.py) and the three ways its rows change
 (src/mitosis/external_actions.py): claim, complete, abandon.

 A claim is the check and the insert in one transaction. A counterparty, a domain and a
 platform account stand for their normalised form, on which the program compares them.
 */
module Channels {
  import opened Basics

  const CONTACT_WINDOW_SECONDS := 86_400
  const MAX_HUMAN_MINUTES_PER_ACTION := 480

  datatype Channel = Email | MarketplaceListing | WebPublish | Unregistered

  datatype TargetKind = Counterparty | DomainName | PlatformAccount

  datatype Flag = ExternalMessage | RealCommerce | ExternalPublish

  datatype Spec = Spec(flag: Flag, kind: TargetKind, cap: nat, openCap: nat)

  function SpecOf(c: Channel): Option<Spec> {
    match c
    case Email => Some(Spec(ExternalMessage, Counterparty, 5, 2))
    case MarketplaceListing => Some(Spec(RealCommerce, PlatformAccount, 3, 2))
    case WebPublish => Some(Spec(ExternalPublish, DomainName, 3, 2))
    case Unregistered => None
  }

  /** An optional text argument: absent, blank after trimming, or a name. */
  datatype Given = NotGiven | Blank | Named(key: string)

  datatype Status = Claimed | Completed | Abandoned

  datatype Outcome = Delivered | NoResponse | PositiveReply | NegativeReply | Bounced | Complaint | AskedToStop

  predicate Damages(o: Outcome) {
    o == Complaint || o == AskedToStop
  }

  datatype Row = Row(
    channel: Channel,
    counterparty: Option<string>,
    domain: Option<string>,
    account: Option<string>,
    artifact: Option<nat>,
    founder: nat,
    grant: nat,
    status: Status,
    claimedAt: int)

  /** `consumed` holds the grants that claims have used up. */
  datatype Registry = Registry(
    rows: seq<Row>,
    frozen: set<Channel>,
    blocked: set<string>,
    enabled: set<Flag>,
    consumed: set<nat>)

  datatype Ask = Ask(channel: Channel, counterparty: Given, domain: Given, account: Given, artifact: Option<nat>)

  /** Who claims and on what grounds. `granted`: the grant exists, is in date, is for an approved
      request and an external action. `mayAct`: the Cell's status lets it act. `deliverable`:
      the artifact, if any, is the Cell's own and exported. `funded`: its budget covers the hold. */
  datatype Holder = Holder(founder: nat, grant: nat, granted: bool, mayAct: bool, deliverable: bool, funded: bool)

  datatype Refusal =
    | UnknownChannel
    | AutonomyOff
    | Frozen
    | TakesNoCounterparty
    | TargetMissing
    | Blocked
    | SiblingCollision
    | DuplicateContact
    | LineageMissing
    | DuplicatePublication
    | RateLimit
    | QuotaExceeded
    | GrantConsumed
    | NotGranted
    | CellMayNotAct
    | NotDeliverable
    | NotFunded
    | NoSuchAction
    | NotClaimed
    | BadMinutes
    | NotFrozen

  // ---- queries on the rows ----------------------------------------------------------------

  function Stored(g: Given): Option<string> {
    if g.Named? then Some(g.key) else None
  }

  function Column(row: Row, kind: TargetKind): Option<string> {
    match kind
    case Counterparty => row.counterparty
    case DomainName => row.domain
    case PlatformAccount => row.account
  }

  function Supplied(a: Ask, kind: TargetKind): Given {
    match kind
    case Counterparty => a.counterparty
    case DomainName => a.domain
    case PlatformAccount => a.account
  }

  /** A row that a collision check still sees. */
  predicate Stands(row: Row, since: int) {
    row.status != Abandoned && row.claimedAt >= since
  }

  predicate Reaches(row: Row, kind: TargetKind, key: string, since: int) {
    Column(row, kind) == Some(key) && Stands(row, since)
  }

  predicate Reached(rows: seq<Row>, kind: TargetKind, key: string, since: int) {
    exists i :: 0 <= i < |rows| && Reaches(rows[i], kind, key, since)
  }

  predicate SiblingReached(rows: seq<Row>, kind: TargetKind, key: string, since: int, founder: nat) {
    exists i :: 0 <= i < |rows| && Reaches(rows[i], kind, key, since) && rows[i].founder != founder
  }

  predicate ReachedOn(rows: seq<Row>, kind: TargetKind, key: string, since: int, channel: Channel) {
    exists i :: 0 <= i < |rows| && Reaches(rows[i], kind, key, since) && rows[i].channel == channel
  }

  predicate PublishedOn(rows: seq<Row>, kind: TargetKind, key: string, since: int, channel: Channel, artifact: nat) {
    exists i :: 0 <= i < |rows| && Reaches(rows[i], kind, key, since) && rows[i].channel == channel
                && rows[i].artifact == Some(artifact)
  }

  function RecentCount(rows: seq<Row>, channel: Channel, since: int): nat {
    if rows == [] then 0
    else
      var row := rows[|rows| - 1];
      RecentCount(rows[..|rows| - 1], channel, since) + if row.channel == channel && Stands(row, since) then 1 else 0
  }

  function OpenCount(rows: seq<Row>, channel: Channel): nat {
    if rows == [] then 0
    else
      var row := rows[|rows| - 1];
      OpenCount(rows[..|rows| - 1], channel) + if row.channel == channel && row.status == Claimed then 1 else 0
  }

  // ---- the checks ------------------------------------------------------------------------------

  /** `target_of`. */
  function TargetOf(spec: Spec, a: Ask): Result<string, Refusal> {
    if spec.kind != Counterparty && a.counterparty != NotGiven then Err(TakesNoCounterparty)
    else
      match Supplied(a, spec.kind)
      case Named(key) => Ok(key)
      case _ => Err(TargetMissing)
  }

  /** `_check_counterparty_locked`. */
  function CheckCounterparty(r: Registry, key: string, channel: Channel, founder: Option<nat>, since: int):
    Option<Refusal>
  {
    if key in r.blocked then Some(Blocked)
    else if founder.Some? && SiblingReached(r.rows, Counterparty, key, since, founder.value) then Some(SiblingCollision)
    else if founder.None? && Reached(r.rows, Counterparty, key, since) then Some(DuplicateContact)
    else if ReachedOn(r.rows, Counterparty, key, since, channel) then Some(DuplicateContact)
    else None
  }

  /** `_check_target_locked`. */
  function CheckTarget(r: Registry, kind: TargetKind, key: string, channel: Channel, artifact: Option<nat>,
                       founder: Option<nat>, since: int): Option<Refusal> {
    if founder.None? then Some(LineageMissing)
    else if SiblingReached(r.rows, kind, key, since, founder.value) then Some(SiblingCollision)
    else if artifact.Some? && PublishedOn(r.rows, kind, key, since, channel, artifact.value) then
      Some(DuplicatePublication)
    else None
  }

  /** `_check_channel_caps_locked`. */
  function CheckCaps(r: Registry, spec: Spec, channel: Channel, since: int): Option<Refusal> {
    if RecentCount(r.rows, channel, since) >= spec.cap then Some(RateLimit)
    else if OpenCount(r.rows, channel) >= spec.openCap then Some(QuotaExceeded)
    else None
  }

  /** `check_action`; `None` means the action is allowed. */
  function CheckAction(r: Registry, a: Ask, founder: Option<nat>, now: int): Option<Refusal> {
    var since := now - CONTACT_WINDOW_SECONDS;
    match SpecOf(a.channel)
    case None => Some(UnknownChannel)
    case Some(spec) =>
      if spec.flag !in r.enabled then Some(AutonomyOff)
      else if a.channel in r.frozen then Some(Frozen)
      else
        match TargetOf(spec, a)
        case Err(e) => Some(e)
        case Ok(key) =>
          var collision :=
            if spec.kind == Counterparty then CheckCounterparty(r, key, a.channel, founder, since)
            else CheckTarget(r, spec.kind, key, a.channel, a.artifact, founder, since);
          if collision.Some? then collision else CheckCaps(r, spec, a.channel, since)
  }

  // ---- the transactions ----------------------------------------------------------------------------

  function NewRow(a: Ask, w: Holder, now: int): Row {
    Row(a.channel, Stored(a.counterparty), Stored(a.domain), Stored(a.account), a.artifact, w.founder, w.grant,
        Claimed, now)
  }

  /** `claim`: the grant, the Cell, the check, the delivery, the budget, in that order; then the
      grant is consumed and the row inserted. */
  function Claim(r: Registry, a: Ask, w: Holder, now: int): Result<Registry, Refusal> {
    if w.grant in r.consumed then Err(GrantConsumed)
    else if !w.granted then Err(NotGranted)
    else if SpecOf(a.channel).None? then Err(UnknownChannel)
    else if !w.mayAct then Err(CellMayNotAct)
    else
      match CheckAction(r, a, Some(w.founder), now)
      case Some(e) => Err(e)
      case None =>
        if !w.deliverable then Err(NotDeliverable)
        else if !w.funded then Err(NotFunded)
        else Ok(r.(rows := r.rows + [NewRow(a, w, now)], consumed := r.consumed + {w.grant}))
  }

  /** `complete`, with the damage two of its outcomes record. */
  function Complete(r: Registry, id: nat, outcome: Outcome, minutes: int): Result<Registry, Refusal> {
    if minutes < 1 || minutes > MAX_HUMAN_MINUTES_PER_ACTION then Err(BadMinutes)
    else if id >= |r.rows| then Err(NoSuchAction)
    else if r.rows[id].status != Claimed then Err(NotClaimed)
    else
      var row := r.rows[id];
      var done := r.(rows := r.rows[id := row.(status := Completed)]);
      if !Damages(outcome) then Ok(done)
      else
        Ok(done.(frozen := r.frozen + {row.channel},
                 blocked := r.blocked + if row.counterparty.Some? then {row.counterparty.value} else {}))
  }

  /** `abandon`. */
  function Abandon(r: Registry, id: nat): Result<Registry, Refusal> {
    if id >= |r.rows| then Err(NoSuchAction)
    else if r.rows[id].status != Claimed then Err(NotClaimed)
    else Ok(r.(rows := r.rows[id := r.rows[id].(status := Abandoned)]))
  }

  /** `acknowledge_channel`. */
  function Acknowledge(r: Registry, channel: Channel): Result<Registry, Refusal> {
    if SpecOf(channel).None? then Err(UnknownChannel)
    else if channel !in r.frozen then Err(NotFrozen)
    else Ok(r.(frozen := r.frozen - {channel}))
  }

  datatype Op =
    | DoClaim(ask: Ask, holder: Holder, now: int)
    | DoComplete(id: nat, outcome: Outcome, minutes: int)
    | DoAbandon(id: nat)
    | DoAcknowledge(channel: Channel)
    | SetFlag(flag: Flag, on: bool)

  function OrKeep(r: Registry, result: Result<Registry, Refusal>): Registry {
    if result.Ok? then result.value else r
  }

  function Next(r: Registry, op: Op): Registry {
    match op
    case DoClaim(a, w, now) => OrKeep(r, Claim(r, a, w, now))
    case DoComplete(id, outcome, minutes) => OrKeep(r, Complete(r, id, outcome, minutes))
    case DoAbandon(id) => OrKeep(r, Abandon(r, id))
    case DoAcknowledge(channel) => OrKeep(r, Acknowledge(r, channel))
    case SetFlag(flag, on) => r.(enabled := if on then r.enabled + {flag} else r.enabled - {flag})
  }

  function Run(r: Registry, ops: seq<Op>): Registry
    decreases |ops|
  {
    if ops == [] then r else Run(Next(r, ops[0]), ops[1..])
  }

  const EMPTY := Registry([], {}, {}, {}, {})

  // ---- the registry as the program runs it ----------------------------------------------------------

  class ChannelDesk {
    var rows: seq<Row>
    var frozen: set<Channel>
    var blocked: set<string>
    var enabled: set<Flag>
    var consumed: set<nat>

    constructor ()
      ensures State() == EMPTY
    {
      rows, frozen, blocked, enabled, consumed := [], {}, {}, {}, {};
    }

    function State(): Registry
      reads this
    {
      Registry(rows, frozen, blocked, enabled, consumed)
    }

    /** The two counts of `_check_channel_caps_locked`, in one pass. */
    method CountActions(channel: Channel, since: int) returns (recent: nat, open: nat)
      ensures recent == RecentCount(rows, channel, since) && open == OpenCount(rows, channel)
    {
      recent, open := 0, 0;
      for i := 0 to |rows|
        invariant recent == RecentCount(rows[..i], channel, since) && open == OpenCount(rows[..i], channel)
      {
        assert rows[..i + 1][..i] == rows[..i];
        if rows[i].channel == channel {
          if Stands(rows[i], since) {
            recent := recent + 1;
          }
          if rows[i].status == Claimed {
            open := open + 1;
          }
        }
      }
      assert rows[..|rows|] == rows;
    }

    method FindSibling(kind: TargetKind, key: string, since: int, founder: nat) returns (found: bool)
      ensures found == SiblingReached(rows, kind, key, since, founder)
    {
      for i := 0 to |rows|
        invariant forall k :: 0 <= k < i ==> !(Reaches(rows[k], kind, key, since) && rows[k].founder != founder)
      {
        if Reaches(rows[i], kind, key, since) && rows[i].founder != founder {
          return true;
        }
      }
      return false;
    }

    method FindOn(kind: TargetKind, key: string, since: int, channel: Channel) returns (found: bool)
      ensures found == ReachedOn(rows, kind, key, since, channel)
    {
      for i := 0 to |rows|
        invariant forall k :: 0 <= k < i ==> !(Reaches(rows[k], kind, key, since) && rows[k].channel == channel)
      {
        if Reaches(rows[i], kind, key, since) && rows[i].channel == channel {
          return true;
        }
      }
      return false;
    }

    method FindAny(kind: TargetKind, key: string, since: int) returns (found: bool)
      ensures found == Reached(rows, kind, key, since)
    {
      for i := 0 to |rows|
        invariant forall k :: 0 <= k < i ==> !Reaches(rows[k], kind, key, since)
      {
        if Reaches(rows[i], kind, key, since) {
          return true;
        }
      }
      return false;
    }

    method FindPublished(kind: TargetKind, key: string, since: int, channel: Channel, artifact: nat)
      returns (found: bool)
      ensures found == PublishedOn(rows, kind, key, since, channel, artifact)
    {
      for i := 0 to |rows|
        invariant forall k :: 0 <= k < i ==>
          !(Reaches(rows[k], kind, key, since) && rows[k].channel == channel && rows[k].artifact == Some(artifact))
      {
        if Reaches(rows[i], kind, key, since) && rows[i].channel == channel && rows[i].artifact == Some(artifact) {
          return true;
        }
      }
      return false;
    }

    method CounterpartyRefusal(key: string, channel: Channel, founder: Option<nat>, since: int)
      returns (refusal: Option<Refusal>)
      ensures refusal == CheckCounterparty(State(), key, channel, founder, since)
    {
      if key in blocked {
        return Some(Blocked);
      }
      if founder.Some? {
        var sibling := FindSibling(Counterparty, key, since, founder.value);
        if sibling {
          return Some(SiblingCollision);
        }
      } else {
        var prior := FindAny(Counterparty, key, since);
        if prior {
          return Some(DuplicateContact);
        }
      }
      var same := FindOn(Counterparty, key, since, channel);
      return if same then Some(DuplicateContact) else None;
    }

    method TargetRefusal(kind: TargetKind, key: string, channel: Channel, artifact: Option<nat>,
                         founder: Option<nat>, since: int) returns (refusal: Option<Refusal>)
      ensures refusal == CheckTarget(State(), kind, key, channel, artifact, founder, since)
    {
      if founder.None? {
        return Some(LineageMissing);
      }
      var sibling := FindSibling(kind, key, since, founder.value);
      if sibling {
        return Some(SiblingCollision);
      }
      if artifact.None? {
        return None;
      }
      var duplicate := FindPublished(kind, key, since, channel, artifact.value);
      return if duplicate then Some(DuplicatePublication) else None;
    }

    /** `check_action`. */
    method Check(a: Ask, founder: Option<nat>, now: int) returns (refusal: Option<Refusal>)
      ensures refusal == CheckAction(State(), a, founder, now)
    {
      var since := now - CONTACT_WINDOW_SECONDS;
      var found := SpecOf(a.channel);
      if found.None? {
        return Some(UnknownChannel);
      }
      var spec := found.value;
      if spec.flag !in enabled {
        return Some(AutonomyOff);
      }
      if a.channel in frozen {
        return Some(Frozen);
      }
      var target := TargetOf(spec, a);
      if target.Err? {
        return Some(target.error);
      }
      if spec.kind == Counterparty {
        refusal := CounterpartyRefusal(target.value, a.channel, founder, since);
      } else {
        refusal := TargetRefusal(spec.kind, target.value, a.channel, a.artifact, founder, since);
      }
      if refusal.Some? {
        return;
      }
      var recent, open := CountActions(a.channel, since);
      if recent >= spec.cap {
        return Some(RateLimit);
      }
      if open >= spec.openCap {
        return Some(QuotaExceeded);
      }
      return None;
    }

    method ClaimAction(a: Ask, w: Holder, now: int) returns (refusal: Option<Refusal>)
      modifies this`rows, this`consumed
      ensures match Claim(old(State()), a, w, now)
              case Ok(r) => State() == r && refusal == None
              case Err(e) => State() == old(State()) && refusal == Some(e)
    {
      if w.grant in consumed {
        return Some(GrantConsumed);
      }
      if !w.granted {
        return Some(NotGranted);
      }
      if SpecOf(a.channel).None? {
        return Some(UnknownChannel);
      }
      if !w.mayAct {
        return Some(CellMayNotAct);
      }
      refusal := Check(a, Some(w.founder), now);
      if refusal.Some? {
        return;
      }
      if !w.deliverable {
        return Some(NotDeliverable);
      }
      if !w.funded {
        return Some(NotFunded);
      }
      consumed := consumed + {w.grant};
      rows := rows + [Row(a.channel, Stored(a.counterparty), Stored(a.domain), Stored(a.account),
                          a.artifact, w.founder, w.grant, Claimed, now)];
      return None;
    }

    method CompleteAction(id: nat, outcome: Outcome, minutes: int) returns (refusal: Option<Refusal>)
      modifies this`rows, this`frozen, this`blocked
      ensures match Complete(old(State()), id, outcome, minutes)
              case Ok(r) => State() == r && refusal == None
              case Err(e) => State() == old(State()) && refusal == Some(e)
    {
      if minutes < 1 || minutes > MAX_HUMAN_MINUTES_PER_ACTION {
        return Some(BadMinutes);
      }
      if id >= |rows| {
        return Some(NoSuchAction);
      }
      var row := rows[id];
      if row.status != Claimed {
        return Some(NotClaimed);
      }
      rows := rows[id := row.(status := Completed)];
      if Damages(outcome) {
        frozen := frozen + {row.channel};
        if row.counterparty.Some? {
          blocked := blocked + {row.counterparty.value};
        }
      }
      return None;
    }

    method AbandonAction(id: nat) returns (refusal: Option<Refusal>)
      modifies this`rows
      ensures match Abandon(old(State()), id)
              case Ok(r) => State() == r && refusal == None
              case Err(e) => State() == old(State()) && refusal == Some(e)
    {
      if id >= |rows| {
        return Some(NoSuchAction);
      }
      if rows[id].status != Claimed {
        return Some(NotClaimed);
      }
      rows := rows[id := rows[id].(status := Abandoned)];
      return None;
    }

    method AcknowledgeChannel(channel: Channel) returns (refusal: Option<Refusal>)
      modifies this`frozen
      ensures match Acknowledge(old(State()), channel)
              case Ok(r) => State() == r && refusal == None
              case Err(e) => State() == old(State()) && refusal == Some(e)
    {
      if SpecOf(channel).None? {
        return Some(UnknownChannel);
      }
      if channel !in frozen {
        return Some(NotFrozen);
      }
      frozen := frozen - {channel};
      return None;
    }
  }
}
