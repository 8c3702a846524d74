/**
 The inbox (src/mitosis/events.py): deliveries, recorded failures, dead letters and replay,
 by any number of workers. Each transaction is one step; the gap the program leaves between
 rolling a failed handler back and recording the failure is a state of its own.
 */
module Inbox {
  import opened Basics

  datatype Status = Pending | Processed | DeadLetter

  datatype Event = Event(dedupeKey: string, status: Status, attempts: nat)

  /** An outbox row and the event whose handler produced it. */
  datatype Staged = Staged(event: nat, dedupeKey: string)

  /** What a handler does inside the transaction: raise, or hand back the keys of new rows. */
  datatype Handling = Raises | Produces(keys: seq<string>)

  /** `failing` holds, for each worker between its rollback and its record, the event. */
  datatype Store = Store(events: seq<Event>, outbox: seq<Staged>, failing: map<nat, nat>, cells: map<nat, CellStatus>)

  const EMPTY := Store([], [], map[], map[])

  datatype Op =
    | Enqueue(dedupeKey: string)
    | Deliver(worker: nat, event: nat, handling: Handling)
    | RecordFailure(worker: nat, cell: Option<nat>)
    | Die(worker: nat)
    | Replay(event: nat)
    | SetStatus(moved: nat, status: CellStatus)

  function FindKey(events: seq<Event>, key: string): (r: Option<nat>)
    ensures r.Some? ==> r.value < |events| && events[r.value].dedupeKey == key
    ensures r.None? ==> forall i :: 0 <= i < |events| ==> events[i].dedupeKey != key
  {
    if events == [] then None
    else
      match FindKey(events[..|events| - 1], key)
      case Some(i) => Some(i)
      case None => if events[|events| - 1].dedupeKey == key then Some(|events| - 1) else None
  }

  predicate HasKey(outbox: seq<Staged>, key: string) {
    exists i :: 0 <= i < |outbox| && outbox[i].dedupeKey == key
  }

  /** The outbox after `_stage_outbox` for each key, or `None` where its UNIQUE key raises. */
  function StageAll(outbox: seq<Staged>, event: nat, keys: seq<string>): Option<seq<Staged>>
    decreases |keys|
  {
    if keys == [] then Some(outbox)
    else if HasKey(outbox, keys[0]) then None
    else StageAll(outbox + [Staged(event, keys[0])], event, keys[1..])
  }

  /** `enqueue`: a known key returns the event it already names. */
  function Enqueued(s: Store, key: string): Store {
    if FindKey(s.events, key).Some? then s else s.(events := s.events + [Event(key, Pending, 0)])
  }

  /** The transaction of `process_event`. */
  function Delivered(s: Store, worker: nat, event: nat, handling: Handling): Store {
    if worker in s.failing || event >= |s.events| || s.events[event].status != Pending then s
    else
      var staged := if handling.Produces? then StageAll(s.outbox, event, handling.keys) else None;
      if staged.Some? then
        s.(outbox := staged.value, events := s.events[event := s.events[event].(status := Processed)])
      else s.(failing := s.failing[worker := event])
  }

  function Failed(e: Event, maxAttempts: nat): Event {
    e.(attempts := e.attempts + 1, status := if e.attempts + 1 >= maxAttempts then DeadLetter else Pending)
  }

  /** A Cell that is running or asleep is quarantined; any other is left as it is. */
  function Quarantine(cells: map<nat, CellStatus>, cell: Option<nat>): map<nat, CellStatus> {
    if cell.Some? && cell.value in cells && (cells[cell.value].Alive? || cells[cell.value].Dormant?) then
      cells[cell.value := Quarantined]
    else cells
  }

  /** `record_failure`: it reads the attempt count and never the status. The failure that makes
      a dead letter quarantines the Cell the event was attributed to, if it was to one. */
  function Recorded(s: Store, worker: nat, cell: Option<nat>, maxAttempts: nat): Store {
    if worker !in s.failing then s
    else
      var event := s.failing[worker];
      var s' := s.(failing := s.failing - {worker});
      if event >= |s.events| then s'
      else
        var failed := Failed(s.events[event], maxAttempts);
        s'.(events := s.events[event := failed],
            cells := if failed.status == DeadLetter then Quarantine(s.cells, cell) else s.cells)
  }

  /** `replay_dead_letter`. */
  function Replayed(s: Store, event: nat): Store {
    if event >= |s.events| || s.events[event].status != DeadLetter then s
    else s.(events := s.events[event := s.events[event].(status := Pending, attempts := 0)])
  }

  function Next(s: Store, op: Op, maxAttempts: nat): Store {
    match op
    case Enqueue(key) => Enqueued(s, key)
    case Deliver(worker, event, handling) => Delivered(s, worker, event, handling)
    case RecordFailure(worker, cell) => Recorded(s, worker, cell, maxAttempts)
    case Die(worker) => s.(failing := s.failing - {worker})
    case Replay(event) => Replayed(s, event)
    case SetStatus(cell, status) => s.(cells := s.cells[cell := status])
  }

  function Run(s: Store, ops: seq<Op>, maxAttempts: nat): Store
    decreases |ops|
  {
    if ops == [] then s else Run(Next(s, ops[0], maxAttempts), ops[1..], maxAttempts)
  }

  // ---- the inbox as one worker runs it -------------------------------------------------------

  class InboxTable {
    var events: seq<Event>
    var outbox: seq<Staged>
    var cells: map<nat, CellStatus>

    constructor (cells: map<nat, CellStatus>)
      ensures State() == EMPTY.(cells := cells)
    {
      events, outbox, this.cells := [], [], cells;
    }

    function State(): Store
      reads this
    {
      Store(events, outbox, map[], cells)
    }

    method EnqueueEvent(key: string) returns (id: nat)
      modifies this`events
      ensures State() == Enqueued(old(State()), key)
      ensures id < |events| && events[id].dedupeKey == key
    {
      for i := 0 to |events|
        invariant FindKey(events[..i], key) == None
      {
        assert events[..i + 1][..i] == events[..i];
        if events[i].dedupeKey == key {
          FirstKeyFound(events, key, i);
          return i;
        }
      }
      assert events[..|events|] == events;
      events := events + [Event(key, Pending, 0)];
      return |events| - 1;
    }

    method StageOutbox(event: nat, keys: seq<string>) returns (staged: Option<seq<Staged>>)
      ensures staged == StageAll(outbox, event, keys)
    {
      var rows := outbox;
      for i := 0 to |keys|
        invariant StageAll(outbox, event, keys) == StageAll(rows, event, keys[i..])
      {
        assert keys[i..][0] == keys[i] && keys[i..][1..] == keys[i + 1..];
        if HasKey(rows, keys[i]) {
          return None;
        }
        rows := rows + [Staged(event, keys[i])];
      }
      assert keys[|keys|..] == [];
      return Some(rows);
    }

    /** `process_event` by a single worker, which may die before it records a failure. */
    method ProcessEvent(event: nat, handling: Handling, cell: Option<nat>, diesBeforeRecord: bool, maxAttempts: nat)
      modifies this
      ensures State() == Run(old(State()),
                             [Deliver(0, event, handling), if diesBeforeRecord then Die(0) else RecordFailure(0, cell)],
                             maxAttempts)
    {
      TwoSteps(State(), Deliver(0, event, handling),
               if diesBeforeRecord then Die(0) else RecordFailure(0, cell), maxAttempts);
      ghost var nobody: map<nat, nat> := map[];
      assert nobody[0 := event] - {0} == nobody && nobody - {0} == nobody;
      if event >= |events| || events[event].status != Pending {
        return;
      }
      if handling.Produces? {
        var staged := StageOutbox(event, handling.keys);
        if staged.Some? {
          outbox := staged.value;
          events := events[event := events[event].(status := Processed)];
          return;
        }
      }
      if !diesBeforeRecord {
        var attempts := events[event].attempts + 1;
        var deadLetter := attempts >= maxAttempts;
        events := events[event := events[event].(attempts := attempts,
                                                 status := if deadLetter then DeadLetter else Pending)];
        if deadLetter && cell.Some? && cell.value in cells && (cells[cell.value].Alive? || cells[cell.value].Dormant?) {
          cells := cells[cell.value := Quarantined];
        }
      }
    }

    method ReplayDeadLetter(event: nat) returns (replayed: bool)
      modifies this`events
      ensures State() == Replayed(old(State()), event)
      ensures replayed <==> old(event < |events| && events[event].status == DeadLetter)
    {
      if event >= |events| || events[event].status != DeadLetter {
        return false;
      }
      events := events[event := events[event].(status := Pending, attempts := 0)];
      return true;
    }
  }

  lemma TwoSteps(s: Store, a: Op, b: Op, m: nat)
    ensures Run(s, [a, b], m) == Next(Next(s, a, m), b, m)
  {
    assert [a, b][1..] == [b] && [b][1..] == [];
    assert Run(Next(s, a, m), [b], m) == Next(Next(s, a, m), b, m);
  }

  lemma {:induction false} FirstKeyFound(events: seq<Event>, key: string, i: nat)
    requires i < |events| && FindKey(events[..i], key) == None && events[i].dedupeKey == key
    ensures FindKey(events, key) == Some(i)
    decreases |events|
  {
    var n := |events| - 1;
    if i == n {
    } else {
      assert events[..n][..i] == events[..i];
      FirstKeyFound(events[..n], key, i);
    }
  }

  // ---- exactly-once staging ---------------------------------------------------------------------

  function KeysOf(outbox: seq<Staged>, event: nat): seq<string> {
    if outbox == [] then []
    else
      var last := outbox[|outbox| - 1];
      KeysOf(outbox[..|outbox| - 1], event) + if last.event == event then [last.dedupeKey] else []
  }

  lemma {:induction false} StagingAppends(outbox: seq<Staged>, event: nat, keys: seq<string>, other: nat)
    requires StageAll(outbox, event, keys).Some?
    ensures var out := StageAll(outbox, event, keys).value;
            && outbox <= out
            && KeysOf(out, other) == KeysOf(outbox, other) + if other == event then keys else []
    decreases |keys|
  {
    if keys == [] {
    } else {
      var longer := outbox + [Staged(event, keys[0])];
      assert longer[..|outbox|] == outbox;
      StagingAppends(longer, event, keys[1..], other);
      assert keys == [keys[0]] + keys[1..];
    }
  }

  /** The one step that overwrites a processed event: a failure recorded on it after another
      worker processed it. */
  predicate Clobbers(s: Store, op: Op, event: nat) {
    && op.RecordFailure? && op.worker in s.failing && s.failing[op.worker] == event
    && event < |s.events| && s.events[event].status == Processed
  }

  /** A delivery that processes the event and stages its rows. */
  predicate Stages(s: Store, op: Op, event: nat) {
    && op.Deliver? && op.event == event && op.worker !in s.failing
    && event < |s.events| && s.events[event].status == Pending
    && op.handling.Produces? && StageAll(s.outbox, event, op.handling.keys).Some?
  }

  function Clobberings(s: Store, ops: seq<Op>, event: nat, maxAttempts: nat): nat
    decreases |ops|
  {
    if ops == [] then 0
    else
      (if Clobbers(s, ops[0], event) then 1 else 0)
      + Clobberings(Next(s, ops[0], maxAttempts), ops[1..], event, maxAttempts)
  }

  function Stagings(s: Store, ops: seq<Op>, event: nat, maxAttempts: nat): nat
    decreases |ops|
  {
    if ops == [] then 0
    else
      (if Stages(s, ops[0], event) then 1 else 0)
      + Stagings(Next(s, ops[0], maxAttempts), ops[1..], event, maxAttempts)
  }

  /** The keys those deliveries staged, in order. */
  function StagedKeys(s: Store, ops: seq<Op>, event: nat, maxAttempts: nat): seq<string>
    decreases |ops|
  {
    if ops == [] then []
    else
      (if Stages(s, ops[0], event) then ops[0].handling.keys else [])
      + StagedKeys(Next(s, ops[0], maxAttempts), ops[1..], event, maxAttempts)
  }

  /** One if the event is processed, none otherwise. */
  function Done(s: Store, event: nat): nat {
    if event < |s.events| && s.events[event].status == Processed then 1 else 0
  }

  lemma StepBalances(s: Store, op: Op, event: nat, maxAttempts: nat)
    ensures var s' := Next(s, op, maxAttempts);
            && Done(s', event) + (if Clobbers(s, op, event) then 1 else 0)
               == Done(s, event) + (if Stages(s, op, event) then 1 else 0)
            && KeysOf(s'.outbox, event)
               == KeysOf(s.outbox, event) + if Stages(s, op, event) then op.handling.keys else []
  {
    if op.Deliver? && Next(s, op, maxAttempts).outbox != s.outbox {
      StagingAppends(s.outbox, op.event, op.handling.keys, event);
    }
    if Stages(s, op, event) {
      StagingAppends(s.outbox, event, op.handling.keys, event);
    }
  }

  /** A processed event stays so with its rows through a step exactly when the step is not a
      failure recorded on it. */
  lemma ProcessedIsKeptExactly(s: Store, op: Op, event: nat, maxAttempts: nat)
    requires event < |s.events| && s.events[event].status == Processed
    ensures event < |Next(s, op, maxAttempts).events|
    ensures KeysOf(Next(s, op, maxAttempts).outbox, event) == KeysOf(s.outbox, event)
    ensures Next(s, op, maxAttempts).events[event].status == Processed <==> !Clobbers(s, op, event)
  {
    StepBalances(s, op, event, maxAttempts);
  }

  /** For any workers, from any state, over any run: an event is processed once more than it was
      by each delivery that processes it and once less by each failure recorded over that. */
  lemma {:induction false} StagingsBalance(s: Store, ops: seq<Op>, event: nat, maxAttempts: nat)
    ensures Done(Run(s, ops, maxAttempts), event) + Clobberings(s, ops, event, maxAttempts)
         == Done(s, event) + Stagings(s, ops, event, maxAttempts)
    decreases |ops|
  {
    if ops == [] {
    } else {
      hide Next, Clobbers, Stages, Done, KeysOf;
      StepBalances(s, ops[0], event, maxAttempts);
      StagingsBalance(Next(s, ops[0], maxAttempts), ops[1..], event, maxAttempts);
    }
  }

  lemma Associates(a: seq<string>, b: seq<string>, c: seq<string>)
    ensures a + (b + c) == a + b + c
  {}

  /** And its rows are those it had and those of these deliveries, in order. */
  lemma {:induction false} RowsAreTheStagings(s: Store, ops: seq<Op>, event: nat, maxAttempts: nat)
    ensures KeysOf(Run(s, ops, maxAttempts).outbox, event)
            == KeysOf(s.outbox, event) + StagedKeys(s, ops, event, maxAttempts)
    decreases |ops|
  {
    if ops == [] {
    } else {
      hide Next, Stages, Clobbers, Done, KeysOf;
      var s' := Next(s, ops[0], maxAttempts);
      var staged := if Stages(s, ops[0], event) then ops[0].handling.keys else [];
      StepBalances(s, ops[0], event, maxAttempts);
      RowsAreTheStagings(s', ops[1..], event, maxAttempts);
      assert Run(s, ops, maxAttempts) == Run(s', ops[1..], maxAttempts);
      var rest := StagedKeys(s', ops[1..], event, maxAttempts);
      assert StagedKeys(s, ops, event, maxAttempts) == staged + rest;
      hide *;
      Associates(KeysOf(s.outbox, event), staged, rest);
    }
  }

  /** Exactly-once staging, for any workers: in every run, an event that ends processed was staged
      exactly once if and only if no failure was recorded on it while it was processed. Its rows
      are always those of the deliveries that processed it. */
  lemma StagedOnceExactly(ops: seq<Op>, event: nat, maxAttempts: nat)
    requires Done(Run(EMPTY, ops, maxAttempts), event) == 1
    ensures Stagings(EMPTY, ops, event, maxAttempts) == 1 <==> Clobberings(EMPTY, ops, event, maxAttempts) == 0
    ensures KeysOf(Run(EMPTY, ops, maxAttempts).outbox, event) == StagedKeys(EMPTY, ops, event, maxAttempts)
  {
    StagingsBalance(EMPTY, ops, event, maxAttempts);
    RowsAreTheStagings(EMPTY, ops, event, maxAttempts);
  }

  /** So from the delivery that processes an event on, its rows are exactly what that one handler
      run produced, and neither they nor its status change ever after, redelivery and dead-letter
      replay included, in every run that records no failure on this event while it is processed. */
  lemma StagedExactlyOnce(before: seq<Op>, worker: nat, event: nat, handling: Handling, after: seq<Op>,
                          maxAttempts: nat)
    requires Clobberings(EMPTY, before, event, maxAttempts) == 0
    requires var s := Run(EMPTY, before, maxAttempts);
             && event < |s.events| && s.events[event].status == Pending
             && var s1 := Delivered(s, worker, event, handling);
                s1.events[event].status == Processed && Clobberings(s1, after, event, maxAttempts) == 0
    ensures var s2 := Run(Delivered(Run(EMPTY, before, maxAttempts), worker, event, handling), after, maxAttempts);
            && event < |s2.events| && s2.events[event].status == Processed
            && handling.Produces? && KeysOf(s2.outbox, event) == handling.keys
  {
    var s := Run(EMPTY, before, maxAttempts);
    var s1 := Delivered(s, worker, event, handling);
    StagingsBalance(EMPTY, before, event, maxAttempts);
    UnstagedKeepsRows(EMPTY, before, event, maxAttempts);
    StepBalances(s, Deliver(worker, event, handling), event, maxAttempts);
    StagingsBalance(s1, after, event, maxAttempts);
    UnstagedKeepsRows(s1, after, event, maxAttempts);
  }

  lemma UnstagedKeepsRows(s: Store, ops: seq<Op>, event: nat, maxAttempts: nat)
    requires Stagings(s, ops, event, maxAttempts) == 0
    ensures KeysOf(Run(s, ops, maxAttempts).outbox, event) == KeysOf(s.outbox, event)
  {
    RowsAreTheStagings(s, ops, event, maxAttempts);
    NoStagingNoKeys(s, ops, event, maxAttempts);
    hide *;
  }

  lemma {:induction false} NoStagingNoKeys(s: Store, ops: seq<Op>, event: nat, maxAttempts: nat)
    ensures Stagings(s, ops, event, maxAttempts) == 0 ==> StagedKeys(s, ops, event, maxAttempts) == []
    decreases |ops|
  {
    if ops == [] {
    } else {
      NoStagingNoKeys(Next(s, ops[0], maxAttempts), ops[1..], event, maxAttempts);
    }
  }

  // ---- attempts -------------------------------------------------------------------------------------

  ghost predicate Capped(s: Store, event: nat, maxAttempts: nat) {
    event < |s.events| ==>
      && (s.events[event].status == Pending ==> s.events[event].attempts < maxAttempts)
      && (s.events[event].status == DeadLetter ==> s.events[event].attempts >= maxAttempts)
  }

  lemma {:induction false} FieldStaysCapped(s: Store, ops: seq<Op>, event: nat, maxAttempts: nat)
    requires maxAttempts >= 1 && Capped(s, event, maxAttempts)
    ensures Capped(Run(s, ops, maxAttempts), event, maxAttempts)
    decreases |ops|
  {
    if ops == [] {
    } else {
      assert Capped(Next(s, ops[0], maxAttempts), event, maxAttempts);
      hide Next, Capped;
      FieldStaysCapped(Next(s, ops[0], maxAttempts), ops[1..], event, maxAttempts);
    }
  }

  /** Rows in the outbox only once processed, and the attempts capped. */
  ghost predicate Sound(s: Store, event: nat, maxAttempts: nat) {
    && Capped(s, event, maxAttempts)
    && (Done(s, event) == 0 ==> KeysOf(s.outbox, event) == [])
  }

  lemma NextIsSound(s: Store, op: Op, event: nat, maxAttempts: nat)
    requires maxAttempts >= 1 && Sound(s, event, maxAttempts) && !Clobbers(s, op, event)
    ensures Sound(Next(s, op, maxAttempts), event, maxAttempts)
  {
    StepBalances(s, op, event, maxAttempts);
  }

  /** With any workers an event stays sound in every run that records no failure on it while it
      is processed, whatever happens to the others. */
  lemma {:induction false} RunIsSound(s: Store, ops: seq<Op>, event: nat, maxAttempts: nat)
    requires maxAttempts >= 1 && Sound(s, event, maxAttempts) && Clobberings(s, ops, event, maxAttempts) == 0
    ensures Sound(Run(s, ops, maxAttempts), event, maxAttempts)
    decreases |ops|
  {
    if ops == [] {
    } else {
      hide Next, Sound, Clobbers;
      NextIsSound(s, ops[0], event, maxAttempts);
      RunIsSound(Next(s, ops[0], maxAttempts), ops[1..], event, maxAttempts);
    }
  }

  // ---- one worker --------------------------------------------------------------------------------------

  predicate OnlyWorker(op: Op, worker: nat) {
    match op
    case Deliver(w, _, _) => w == worker
    case RecordFailure(w, _) => w == worker
    case Die(w) => w == worker
    case _ => true
  }

  /** The event a lone worker is about to record a failure on is still pending. */
  ghost predicate FailsOnPending(s: Store, worker: nat) {
    && (forall w :: w in s.failing ==> w == worker)
    && (worker in s.failing ==> s.failing[worker] < |s.events| && s.events[s.failing[worker]].status == Pending)
  }

  /** With one worker no failure is ever recorded on a processed event, whatever crashes,
      redeliveries and replays there are. */
  lemma {:induction false} OneWorkerNeverClobbers(s: Store, ops: seq<Op>, worker: nat, event: nat, maxAttempts: nat)
    requires FailsOnPending(s, worker) && forall op :: op in ops ==> OnlyWorker(op, worker)
    ensures Clobberings(s, ops, event, maxAttempts) == 0
    decreases |ops|
  {
    if ops == [] {
    } else {
      assert ops[0] in ops;
      var s' := Next(s, ops[0], maxAttempts);
      assert FailsOnPending(s', worker);
      OneWorkerNeverClobbers(s', ops[1..], worker, event, maxAttempts);
    }
  }

  /** So for one worker every event of every reachable inbox is sound. */
  lemma OneWorkerIsSound(ops: seq<Op>, worker: nat, event: nat, maxAttempts: nat)
    requires maxAttempts >= 1 && forall op :: op in ops ==> OnlyWorker(op, worker)
    ensures Sound(Run(EMPTY, ops, maxAttempts), event, maxAttempts)
  {
    OneWorkerNeverClobbers(EMPTY, ops, worker, event, maxAttempts);
    RunIsSound(EMPTY, ops, event, maxAttempts);
  }

  lemma {:induction false} OneWorkerKeepsPending(s: Store, ops: seq<Op>, worker: nat, maxAttempts: nat)
    requires FailsOnPending(s, worker) && forall op :: op in ops ==> OnlyWorker(op, worker)
    ensures FailsOnPending(Run(s, ops, maxAttempts), worker)
    decreases |ops|
  {
    if ops == [] {
    } else {
      assert ops[0] in ops;
      var s' := Next(s, ops[0], maxAttempts);
      assert FailsOnPending(s', worker);
      OneWorkerKeepsPending(s', ops[1..], worker, maxAttempts);
    }
  }

  /** One worker stages each event's rows exactly once: from the delivery that processes it on,
      whatever crashes, redeliveries, failures and replays came before or follow. */
  lemma OneWorkerStagesOnce(before: seq<Op>, worker: nat, event: nat, handling: Handling, after: seq<Op>,
                            maxAttempts: nat)
    requires forall op :: op in before + after ==> OnlyWorker(op, worker)
    requires var s := Run(EMPTY, before, maxAttempts);
             && event < |s.events| && s.events[event].status == Pending
             && Delivered(s, worker, event, handling).events[event].status == Processed
    ensures var s2 := Run(Delivered(Run(EMPTY, before, maxAttempts), worker, event, handling), after, maxAttempts);
            && event < |s2.events| && s2.events[event].status == Processed
            && handling.Produces? && KeysOf(s2.outbox, event) == handling.keys
  {
    assert forall op :: op in before ==> op in before + after;
    assert forall op :: op in after ==> op in before + after;
    OneWorkerNeverClobbers(EMPTY, before, worker, event, maxAttempts);
    OneWorkerKeepsPending(EMPTY, before, worker, maxAttempts);
    var s1 := Delivered(Run(EMPTY, before, maxAttempts), worker, event, handling);
    assert FailsOnPending(s1, worker);
    OneWorkerNeverClobbers(s1, after, worker, event, maxAttempts);
    StagedExactlyOnce(before, worker, event, handling, after, maxAttempts);
  }

  // ---- two workers -----------------------------------------------------------------------------------------

  const FAILED_FIRST := Store([Event("e", Pending, 0)], [], map[1 := 0], map[])
  const THEN_PROCESSED := Store([Event("e", Processed, 0)], [Staged(0, "a")], map[1 := 0], map[])
  const THEN_RECORDED := Store([Event("e", Pending, 1)], [Staged(0, "a")], map[], map[])
  const PROCESSED_TWICE := Store([Event("e", Processed, 1)], [Staged(0, "a"), Staged(0, "b")], map[], map[])

  lemma FirstHalf()
    ensures Next(Enqueued(EMPTY, "e"), Deliver(1, 0, Raises), 3) == FAILED_FIRST
    ensures Next(FAILED_FIRST, Deliver(2, 0, Produces(["a"])), 3) == THEN_PROCESSED
  {
    assert Enqueued(EMPTY, "e").events == [Event("e", Pending, 0)];
    StageOne([], 0, "a");
  }

  lemma SecondHalf()
    ensures Next(THEN_PROCESSED, RecordFailure(1, None), 3) == THEN_RECORDED
            && Clobbers(THEN_PROCESSED, RecordFailure(1, None), 0)
    ensures Next(THEN_RECORDED, Deliver(2, 0, Produces(["b"])), 3) == PROCESSED_TWICE
  {
    assert THEN_PROCESSED.failing - {1} == map[];
    StageOne(THEN_RECORDED.outbox, 0, "b");
    assert THEN_RECORDED.outbox + [Staged(0, "b")] == PROCESSED_TWICE.outbox;
  }

  lemma RowsTwice()
    ensures KeysOf(PROCESSED_TWICE.outbox, 0) == ["a", "b"]
  {
    var outbox := PROCESSED_TWICE.outbox;
    assert outbox[..1] == THEN_RECORDED.outbox && THEN_RECORDED.outbox[..0] == [];
    assert KeysOf(THEN_RECORDED.outbox, 0) == ["a"];
  }

  /** Two workers break it. Worker 1 fails, worker 2 processes the event, and worker 1 records
      its failure: the event is pending again, and its rows are staged a second time. */
  lemma TwoWorkersStageTwice()
    ensures var ops := [Deliver(1, 0, Raises), Deliver(2, 0, Produces(["a"])), RecordFailure(1, None),
                        Deliver(2, 0, Produces(["b"]))];
            var s := Run(Enqueued(EMPTY, "e"), ops, 3);
            && |s.events| == 1 && s.events[0].status == Processed && KeysOf(s.outbox, 0) == ["a", "b"]
            && Clobberings(Enqueued(EMPTY, "e"), ops, 0, 3) >= 1
  {
    FirstHalf();
    SecondHalf();
    RowsTwice();
    hide Next, KeysOf, Clobbers, Run, Clobberings, Enqueued;
    FourSteps(Enqueued(EMPTY, "e"), Deliver(1, 0, Raises), Deliver(2, 0, Produces(["a"])), RecordFailure(1, None),
              Deliver(2, 0, Produces(["b"])), 3);
  }

  lemma StageOne(outbox: seq<Staged>, event: nat, key: string)
    requires !HasKey(outbox, key)
    ensures StageAll(outbox, event, [key]) == Some(outbox + [Staged(event, key)])
  {
    assert [key][1..] == [];
  }

  lemma FourSteps(s: Store, a: Op, b: Op, c: Op, d: Op, m: nat)
    ensures Run(s, [a, b, c, d], m) == Next(Next(Next(Next(s, a, m), b, m), c, m), d, m)
    ensures Clobbers(Next(Next(s, a, m), b, m), c, 0) ==> Clobberings(s, [a, b, c, d], 0, m) >= 1
  {
    var s1, s2 := Next(s, a, m), Next(Next(s, a, m), b, m);
    var s3 := Next(s2, c, m);
    assert [a, b, c, d][1..] == [b, c, d] && [b, c, d][1..] == [c, d] && [c, d][1..] == [d] && [d][1..] == [];
    assert Run(s, [a, b, c, d], m) == Run(s1, [b, c, d], m) == Run(s2, [c, d], m);
    assert Run(s2, [c, d], m) == Run(s3, [d], m);
    assert Run(s3, [d], m) == Next(s3, d, m);
    assert Clobberings(s, [a, b, c, d], 0, m) >= Clobberings(s1, [b, c, d], 0, m) >= Clobberings(s2, [c, d], 0, m);
  }

  // ---- keys are identities -------------------------------------------------------------------------------------

  ghost predicate DistinctRows(outbox: seq<Staged>) {
    forall i, j :: 0 <= i < j < |outbox| ==> outbox[i].dedupeKey != outbox[j].dedupeKey
  }

  ghost predicate DistinctEvents(events: seq<Event>) {
    forall i, j :: 0 <= i < j < |events| ==> events[i].dedupeKey != events[j].dedupeKey
  }

  lemma {:induction false} StagingKeepsDistinct(outbox: seq<Staged>, event: nat, keys: seq<string>)
    requires DistinctRows(outbox) && StageAll(outbox, event, keys).Some?
    ensures DistinctRows(StageAll(outbox, event, keys).value)
    decreases |keys|
  {
    if keys == [] {
    } else {
      StagingKeepsDistinct(outbox + [Staged(event, keys[0])], event, keys[1..]);
    }
  }

  /** Any workers, any run: no two events and no two outbox rows ever share a dedupe key. */
  lemma {:induction false} KeysStayDistinct(s: Store, ops: seq<Op>, maxAttempts: nat)
    requires DistinctRows(s.outbox) && DistinctEvents(s.events)
    ensures DistinctRows(Run(s, ops, maxAttempts).outbox) && DistinctEvents(Run(s, ops, maxAttempts).events)
    decreases |ops|
  {
    if ops == [] {
    } else {
      var s' := Next(s, ops[0], maxAttempts);
      if ops[0].Deliver? && s'.outbox != s.outbox {
        StagingKeepsDistinct(s.outbox, ops[0].event, ops[0].handling.keys);
      }
      assert DistinctEvents(s'.events);
      KeysStayDistinct(s', ops[1..], maxAttempts);
    }
  }
}
