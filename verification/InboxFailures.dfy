/**
 What failures do to the inbox, counted over the operations of a run and not over the column
 the program keeps: how often an event has failed since it last began, when that makes a dead
 letter of it, and which Cells that quarantines.
 */
module InboxFailures {
  import opened Basics
  import opened Inbox

  /** An empty inbox beside these Cells. */
  function Fresh(cells: map<nat, CellStatus>): Store {
    EMPTY.(cells := cells)
  }

  lemma {:induction false} RunEndsWith(s: Store, ops: seq<Op>, m: nat)
    requires ops != []
    ensures Run(s, ops, m) == Next(Run(s, ops[..|ops| - 1], m), ops[|ops| - 1], m)
    decreases |ops|
  {
    hide Next;
    var n := |ops| - 1;
    if n == 0 {
      assert ops[1..] == [];
    } else {
      RunEndsWith(Next(s, ops[0], m), ops[1..], m);
      assert ops[1..][..n - 1] == ops[..n][1..];
    }
  }

  // ---- who owes a failure --------------------------------------------------------------------

  /** A handler's rows cannot be staged: two share a key, or one has a key already there. */
  ghost predicate KeysClash(outbox: seq<Staged>, keys: seq<string>) {
    || (exists i, j :: 0 <= i < j < |keys| && keys[i] == keys[j])
    || (exists i, k :: 0 <= i < |outbox| && 0 <= k < |keys| && outbox[i].dedupeKey == keys[k])
  }

  /** Staging is refused exactly on a clash, and otherwise appends the rows in order. */
  lemma {:induction false} StagingIsExact(outbox: seq<Staged>, event: nat, keys: seq<string>)
    ensures StageAll(outbox, event, keys).None? <==> KeysClash(outbox, keys)
    ensures StageAll(outbox, event, keys).Some? ==>
              StageAll(outbox, event, keys).value
              == outbox + seq(|keys|, i requires 0 <= i < |keys| => Staged(event, keys[i]))
    decreases |keys|
  {
    if keys == [] {
    } else {
      var longer, rest := outbox + [Staged(event, keys[0])], keys[1..];
      if HasKey(outbox, keys[0]) {
      } else {
        StagingIsExact(longer, event, rest);
        ClashUnfolds(outbox, event, keys);
        assert [Staged(event, keys[0])] + seq(|rest|, i requires 0 <= i < |rest| => Staged(event, rest[i]))
            == seq(|keys|, i requires 0 <= i < |keys| => Staged(event, keys[i]));
      }
    }
  }

  lemma ClashUnfolds(outbox: seq<Staged>, event: nat, keys: seq<string>)
    requires keys != [] && !HasKey(outbox, keys[0])
    ensures KeysClash(outbox, keys) <==> KeysClash(outbox + [Staged(event, keys[0])], keys[1..])
  {
    var longer, rest := outbox + [Staged(event, keys[0])], keys[1..];
    if i, j :| 0 <= i < j < |keys| && keys[i] == keys[j] {
      if i == 0 {
        assert longer[|outbox|].dedupeKey == rest[j - 1];
      } else {
        assert rest[i - 1] == rest[j - 1];
      }
    }
    if i, k :| 0 <= i < |outbox| && 0 <= k < |keys| && outbox[i].dedupeKey == keys[k] {
      assert longer[i].dedupeKey == rest[k - 1];
    }
    if i, j :| 0 <= i < j < |rest| && rest[i] == rest[j] {
      assert keys[i + 1] == keys[j + 1];
    }
    if i, k :| 0 <= i < |longer| && 0 <= k < |rest| && longer[i].dedupeKey == rest[k] {
      if i == |outbox| {
        assert keys[0] == keys[k + 1];
      } else {
        assert outbox[i].dedupeKey == keys[k + 1];
      }
    }
  }

  /** A delivery of a pending event whose handler raises, or whose rows clash. */
  ghost predicate Fails(s: Store, op: Op) {
    && op.Deliver? && op.event < |s.events| && s.events[op.event].status == Pending
    && (op.handling.Raises? || KeysClash(s.outbox, op.handling.keys))
  }

  /** The event whose failure this worker has rolled back and not yet recorded, read off the
      operations: it is the last it failed on, unless it has recorded that or died since. */
  ghost function Owed(s: Store, ops: seq<Op>, worker: nat, m: nat): Option<nat>
    decreases |ops|
  {
    if ops == [] then None
    else
      var n := |ops| - 1;
      var before, op := Owed(s, ops[..n], worker, m), ops[n];
      match op
      case Deliver(w, event, _) =>
        if w == worker && before.None? && Fails(Run(s, ops[..n], m), op) then Some(event) else before
      case RecordFailure(w, _) => if w == worker then None else before
      case Die(w) => if w == worker then None else before
      case _ => before
  }

  function FailingOf(s: Store, worker: nat): Option<nat> {
    if worker in s.failing then Some(s.failing[worker]) else None
  }

  lemma OwedStep(s: Store, op: Op, worker: nat, m: nat)
    ensures FailingOf(Next(s, op, m), worker)
         == match op
            case Deliver(w, event, _) =>
              if w == worker && FailingOf(s, worker).None? && Fails(s, op) then Some(event) else FailingOf(s, worker)
            case RecordFailure(w, _) => if w == worker then None else FailingOf(s, worker)
            case Die(w) => if w == worker then None else FailingOf(s, worker)
            case _ => FailingOf(s, worker)
  {
    if op.Deliver? && op.handling.Produces? {
      StagingIsExact(s.outbox, op.event, op.handling.keys);
    }
    hide KeysClash, StageAll;
  }

  lemma {:induction false} FailingIsWhatIsOwed(cells: map<nat, CellStatus>, ops: seq<Op>, worker: nat, m: nat)
    ensures FailingOf(Run(Fresh(cells), ops, m), worker) == Owed(Fresh(cells), ops, worker, m)
    decreases |ops|
  {
    if ops == [] {
    } else {
      hide Next, Fails, FailingOf;
      var n := |ops| - 1;
      FailingIsWhatIsOwed(cells, ops[..n], worker, m);
      RunEndsWith(Fresh(cells), ops, m);
      OwedStep(Run(Fresh(cells), ops[..n], m), ops[n], worker, m);
    }
  }

  // ---- how often an event has failed ---------------------------------------------------------

  /** The last operation records a failure of this event. */
  ghost predicate RecordsOn(s: Store, ops: seq<Op>, event: nat, m: nat)
    requires ops != []
  {
    var n := |ops| - 1;
    ops[n].RecordFailure? && Owed(s, ops[..n], ops[n].worker, m) == Some(event)
  }

  /** The last operation takes this event back out of the dead letters. */
  ghost predicate Reopens(s: Store, ops: seq<Op>, event: nat, m: nat)
    requires ops != []
  {
    var n := |ops| - 1;
    var before := Run(s, ops[..n], m);
    ops[n] == Replay(event) && event < |before.events| && before.events[event].status == DeadLetter
  }

  /** The failures recorded on an event since it was enqueued or last replayed. */
  ghost function Failures(s: Store, ops: seq<Op>, event: nat, m: nat): nat
    decreases |ops|
  {
    if ops == [] then 0
    else
      var before := Failures(s, ops[..|ops| - 1], event, m);
      if RecordsOn(s, ops, event, m) then before + 1
      else if Reopens(s, ops, event, m) then 0
      else before
  }

  ghost predicate AttemptsCount(s: Store, event: nat, failures: nat) {
    (event < |s.events| ==> s.events[event].attempts == failures) && (event >= |s.events| ==> failures == 0)
  }

  /** Nobody owes a failure on an event that is not there. */
  ghost predicate OwesKnown(s: Store) {
    forall w :: w in s.failing ==> s.failing[w] < |s.events|
  }

  lemma AttemptsStep(s: Store, op: Op, event: nat, failures: nat, m: nat)
    requires AttemptsCount(s, event, failures) && OwesKnown(s)
    ensures OwesKnown(Next(s, op, m))
    ensures AttemptsCount(Next(s, op, m), event,
                          if op.RecordFailure? && FailingOf(s, op.worker) == Some(event) then failures + 1
                          else if op == Replay(event) && event < |s.events|
                                  && s.events[event].status == DeadLetter then 0
                          else failures)
  {}

  /** In every run, with any workers, the attempts on record are the failures counted. */
  lemma {:induction false} AttemptsAreFailures(cells: map<nat, CellStatus>, ops: seq<Op>, event: nat, m: nat)
    ensures OwesKnown(Run(Fresh(cells), ops, m))
    ensures AttemptsCount(Run(Fresh(cells), ops, m), event, Failures(Fresh(cells), ops, event, m))
    decreases |ops|
  {
    if ops == [] {
    } else {
      hide Next, AttemptsCount, OwesKnown, FailingOf;
      var n := |ops| - 1;
      AttemptsAreFailures(cells, ops[..n], event, m);
      RunEndsWith(Fresh(cells), ops, m);
      if ops[n].RecordFailure? {
        FailingIsWhatIsOwed(cells, ops[..n], ops[n].worker, m);
      }
      AttemptsStep(Run(Fresh(cells), ops[..n], m), ops[n], event, Failures(Fresh(cells), ops[..n], event, m), m);
    }
  }

  // ---- dead letters ----------------------------------------------------------------------------

  /** In every run with any workers, late failures included: an event that is not processed is a
      dead letter exactly when it has failed as often as allowed. */
  lemma AttemptsAreCapped(cells: map<nat, CellStatus>, ops: seq<Op>, event: nat, m: nat)
    requires m >= 1
    ensures var s := Run(Fresh(cells), ops, m);
            event < |s.events| && s.events[event].status != Processed ==>
              (s.events[event].status == DeadLetter <==> Failures(Fresh(cells), ops, event, m) >= m)
  {
    AttemptsAreFailures(cells, ops, event, m);
    FieldStaysCapped(Fresh(cells), ops, event, m);
  }

  /** A failure recorded on an event leaves it a dead letter or pending again, by that count,
      whatever it was before. */
  lemma FailureDecides(cells: map<nat, CellStatus>, ops: seq<Op>, event: nat, m: nat)
    requires ops != [] && RecordsOn(Fresh(cells), ops, event, m)
    ensures var s := Run(Fresh(cells), ops, m);
            && event < |s.events|
            && s.events[event].status
               == if Failures(Fresh(cells), ops, event, m) >= m then DeadLetter else Pending
  {
    var n := |ops| - 1;
    var before := Run(Fresh(cells), ops[..n], m);
    AttemptsAreFailures(cells, ops[..n], event, m);
    AttemptsAreFailures(cells, ops, event, m);
    FailingIsWhatIsOwed(cells, ops[..n], ops[n].worker, m);
    RunEndsWith(Fresh(cells), ops, m);
  }

  // ---- poison events -----------------------------------------------------------------------------

  predicate MayBeQuarantined(s: Store, cell: nat) {
    cell in s.cells && (s.cells[cell] == Alive || s.cells[cell] == Dormant)
  }

  /** The last operation records, attributed to this running or sleeping Cell, the failure that
      an event was still allowed and no more. */
  ghost predicate Poisons(s: Store, ops: seq<Op>, cell: nat, m: nat)
    requires ops != []
  {
    var n := |ops| - 1;
    && ops[n].RecordFailure? && ops[n].cell == Some(cell) && MayBeQuarantined(Run(s, ops[..n], m), cell)
    && exists event: nat :: RecordsOn(s, ops, event, m) && Failures(s, ops, event, m) >= m
  }

  ghost predicate EverPoisoned(s: Store, ops: seq<Op>, cell: nat, m: nat) {
    exists k :: 0 < k <= |ops| && Poisons(s, ops[..k], cell, m)
  }

  predicate SetsStatusOf(op: Op, cell: nat) {
    op.SetStatus? && op.moved == cell
  }

  /** One operation moves a Cell exactly if it poisons it, and then into quarantine. */
  lemma CellIsMovedExactly(cells: map<nat, CellStatus>, ops: seq<Op>, cell: nat, m: nat)
    requires ops != [] && !SetsStatusOf(ops[|ops| - 1], cell)
    ensures var before, s := Run(Fresh(cells), ops[..|ops| - 1], m), Run(Fresh(cells), ops, m);
            && (cell in s.cells <==> cell in before.cells)
            && (cell in s.cells ==>
                  s.cells[cell] == if Poisons(Fresh(cells), ops, cell, m) then Quarantined else before.cells[cell])
  {
    var n := |ops| - 1;
    var before := Run(Fresh(cells), ops[..n], m);
    RunEndsWith(Fresh(cells), ops, m);
    if ops[n].RecordFailure? && ops[n].worker in before.failing {
      var event := before.failing[ops[n].worker];
      FailingIsWhatIsOwed(cells, ops[..n], ops[n].worker, m);
      AttemptsAreFailures(cells, ops[..n], event, m);
      assert RecordsOn(Fresh(cells), ops, event, m);
    } else if ops[n].RecordFailure? {
      FailingIsWhatIsOwed(cells, ops[..n], ops[n].worker, m);
    }
  }

  lemma PoisonedLast(s: Store, ops: seq<Op>, cell: nat, m: nat)
    requires ops != []
    ensures EverPoisoned(s, ops, cell, m)
       <==> EverPoisoned(s, ops[..|ops| - 1], cell, m) || Poisons(s, ops, cell, m)
  {
    hide Poisons;
    var n := |ops| - 1;
    assert ops[..|ops|] == ops;
    if EverPoisoned(s, ops[..n], cell, m) {
      var k :| 0 < k <= n && Poisons(s, ops[..n][..k], cell, m);
      assert ops[..n][..k] == ops[..k];
    }
    if EverPoisoned(s, ops, cell, m) {
      var k :| 0 < k <= |ops| && Poisons(s, ops[..k], cell, m);
      if k <= n { assert ops[..n][..k] == ops[..k]; }
    }
  }

  /** Any workers, any run in which nothing else moves the Cell: it ends quarantined by the inbox
      exactly when some failure, attributed to it while it ran or slept, was the last its event
      was allowed, and otherwise its status is what it was. Processing, staging, replaying and
      dying move nobody. */
  lemma {:induction false} QuarantinedExactlyByPoison(cells: map<nat, CellStatus>, ops: seq<Op>, cell: nat, m: nat)
    requires cell in cells && forall op :: op in ops ==> !SetsStatusOf(op, cell)
    ensures var s := Run(Fresh(cells), ops, m);
            && cell in s.cells
            && s.cells[cell] == if EverPoisoned(Fresh(cells), ops, cell, m) then Quarantined else cells[cell]
    decreases |ops|
  {
    if ops == [] {
    } else {
      hide Next, Poisons, EverPoisoned, Run;
      var n := |ops| - 1;
      assert ops[n] in ops && forall op :: op in ops[..n] ==> op in ops;
      QuarantinedExactlyByPoison(cells, ops[..n], cell, m);
      CellIsMovedExactly(cells, ops, cell, m);
      PoisonedLast(Fresh(cells), ops, cell, m);
    }
  }

  // ---- enqueueing ----------------------------------------------------------------------------------

  ghost predicate Known(s: Store, key: string, event: nat) {
    event < |s.events| && s.events[event].dedupeKey == key
  }

  /** Enqueueing makes its key known and disturbs nothing: a known key changes nothing, and a new
      one brings one pending event that has never failed. */
  lemma EnqueueIsExact(s: Store, key: string, m: nat)
    ensures var s' := Next(s, Enqueue(key), m);
            && (exists event: nat :: Known(s', key, event))
            && ((exists event: nat :: Known(s, key, event)) ==> s' == s)
            && ((forall event: nat :: !Known(s, key, event)) ==>
                  s' == s.(events := s.events + [Event(key, Pending, 0)]))
  {
    var s' := Next(s, Enqueue(key), m);
    if FindKey(s.events, key).Some? {
      assert Known(s, key, FindKey(s.events, key).value);
    } else {
      assert Known(s', key, |s.events|);
    }
  }
}
