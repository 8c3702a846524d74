/**
 Dispatching the outbox (src/mitosis/events.py, `dispatch_outbox`): one dispatcher that
 publishes each unpublished row and then marks it, and may die between any two of those
 steps, while other transactions keep adding rows.
 */
module Outbox {
  /** `queue` holds the rows still to do, as read when the dispatch began; `sent` says the
      first of them has been handed to the publisher and is not yet marked. */
  datatype Dispatcher = Idle | Dispatching(queue: seq<nat>, sent: bool)

  /** `marks` is the published mark of each row in insertion order; `log` is every delivery the
      publisher saw, by row. */
  datatype Outbox = Outbox(marks: seq<bool>, log: seq<nat>, dispatcher: Dispatcher)

  datatype Step = Stage | Begin | Publish | Mark | Stop

  const EMPTY := Outbox([], [], Idle)

  /** Unpublished rows from `from` on, in insertion order. */
  function UnpublishedFrom(marks: seq<bool>, from: nat): seq<nat>
    requires from <= |marks|
    decreases |marks| - from
  {
    if from == |marks| then []
    else if marks[from] then UnpublishedFrom(marks, from + 1)
    else [from] + UnpublishedFrom(marks, from + 1)
  }

  /** One step. `Stop` is a crash, a publisher's exception, or the end of the loop. */
  function Next(o: Outbox, step: Step): Outbox {
    match step
    case Stage => o.(marks := o.marks + [false])
    case Begin => if o.dispatcher.Idle? then o.(dispatcher := Dispatching(UnpublishedFrom(o.marks, 0), false)) else o
    case Publish =>
      if o.dispatcher.Dispatching? && !o.dispatcher.sent && o.dispatcher.queue != [] then
        o.(log := o.log + [o.dispatcher.queue[0]], dispatcher := o.dispatcher.(sent := true))
      else o
    case Mark =>
      if o.dispatcher.Dispatching? && o.dispatcher.sent && o.dispatcher.queue != []
          && o.dispatcher.queue[0] < |o.marks| then
        o.(marks := o.marks[o.dispatcher.queue[0] := true],
           dispatcher := Dispatching(o.dispatcher.queue[1..], false))
      else o
    case Stop => o.(dispatcher := Idle)
  }

  function Run(o: Outbox, steps: seq<Step>): Outbox
    decreases |steps|
  {
    if steps == [] then o else Run(Next(o, steps[0]), steps[1..])
  }

  // ---- one dispatch as the program runs it ----------------------------------------------

  /** `steps` alternations of publish and mark, starting with whichever is due. */
  function Ticks(o: Outbox, steps: nat): Outbox
    decreases steps
  {
    if steps == 0 || !o.dispatcher.Dispatching? || o.dispatcher.queue == [] then o
    else Ticks(Next(o, if o.dispatcher.sent then Mark else Publish), steps - 1)
  }

  predicate RowsBelow(queue: seq<nat>, n: nat) {
    forall k :: 0 <= k < |queue| ==> queue[k] < n
  }

  class OutboxTable {
    var marks: seq<bool>
    var log: seq<nat>

    constructor ()
      ensures State(Idle) == EMPTY
    {
      marks, log := [], [];
    }

    ghost function State(d: Dispatcher): Outbox
      reads this
    {
      Outbox(marks, log, d)
    }

    method StageRow()
      modifies this`marks
      ensures State(Idle) == Next(old(State(Idle)), Stage)
    {
      marks := marks + [false];
    }

    method SelectUnpublished() returns (rows: seq<nat>)
      ensures rows == UnpublishedFrom(marks, 0) && RowsBelow(rows, |marks|)
    {
      rows := [];
      var i := |marks|;
      while i > 0
        invariant 0 <= i <= |marks|
        invariant rows == UnpublishedFrom(marks, i) && RowsBelow(rows, |marks|)
      {
        i := i - 1;
        if !marks[i] {
          rows := [i] + rows;
        }
      }
    }

    /** `dispatch_outbox`, dying after `fuel` publisher calls and marks. The rows it returns
        are those it marked. */
    method Dispatch(fuel: nat) returns (published: seq<nat>)
      modifies this`marks, this`log
      ensures State(Idle) == Next(Ticks(Next(old(State(Idle)), Begin), fuel), Stop)
      ensures 2 * |old(UnpublishedFrom(marks, 0))| <= fuel ==> published == old(UnpublishedFrom(marks, 0))
    {
      var rows := SelectUnpublished();
      ghost var final := Ticks(Next(State(Idle), Begin), fuel);
      published := [];
      var left := fuel;
      for k := 0 to |rows|
        invariant RowsBelow(rows, |marks|) && published == rows[..k]
        invariant left == fuel - 2 * k
        invariant Ticks(State(Dispatching(rows[k..], false)), left) == final
      {
        assert rows[k..][0] == rows[k] && rows[k..][1..] == rows[k + 1..];
        if left == 0 {
          return;
        }
        log := log + [rows[k]];
        if left == 1 {
          return;
        }
        marks := marks[rows[k] := true];
        left := left - 2;
        published := published + [rows[k]];
      }
      assert rows[|rows|..] == [];
    }
  }

  // ---- what every run delivers ---------------------------------------------------------------

  function Upto(n: nat): (r: seq<nat>)
    ensures |r| == n && forall i :: 0 <= i < n ==> r[i] == i
  {
    if n == 0 then [] else Upto(n - 1) + [n - 1]
  }

  /** The log with a repeat of the delivery before it dropped. */
  function Collapse(log: seq<nat>): seq<nat> {
    if |log| <= 1 then log
    else
      var n := |log| - 1;
      if log[n] == log[n - 1] then Collapse(log[..n]) else Collapse(log[..n]) + [log[n]]
  }

  /** Exactly the first `p` rows are marked. */
  ghost predicate MarkedPrefix(marks: seq<bool>, p: nat) {
    p <= |marks| && forall i :: 0 <= i < |marks| ==> (marks[i] <==> i < p)
  }

  /** A run of consecutive rows starting at `p`. */
  ghost predicate Consecutive(queue: seq<nat>, p: nat) {
    forall k :: 0 <= k < |queue| ==> queue[k] == p + k
  }

  /** The log is the first `m` rows in order, each delivered once or several times in a row. */
  ghost predicate Logged(log: seq<nat>, m: nat) {
    Collapse(log) == Upto(m) && (log == [] <==> m == 0) && (m > 0 ==> log[|log| - 1] == m - 1)
  }

  /** The dispatcher works through a run of rows from the first unmarked one. */
  ghost predicate Working(d: Dispatcher, p: nat, m: nat, n: nat) {
    d.Dispatching? ==>
      && Consecutive(d.queue, p) && p + |d.queue| <= n
      && (d.sent ==> d.queue != [] && m == p + 1)
  }

  /** `p` rows are marked and `m` delivered: all the marked ones and at most one more. */
  ghost predicate Orderly(o: Outbox, p: nat, m: nat) {
    && MarkedPrefix(o.marks, p) && p <= m <= p + 1 && m <= |o.marks|
    && Logged(o.log, m) && Working(o.dispatcher, p, m, |o.marks|)
  }

  lemma {:induction false} UnpublishedIsTheRest(marks: seq<bool>, p: nat, from: nat)
    requires MarkedPrefix(marks, p) && from <= |marks|
    ensures var q := UnpublishedFrom(marks, from);
            var start := if from < p then p else from;
            |q| == |marks| - start && Consecutive(q, start)
    decreases |marks| - from
  {
    if from == |marks| {
    } else {
      UnpublishedIsTheRest(marks, p, from + 1);
    }
  }

  lemma DeliveryIsLogged(log: seq<nat>, m: nat, row: nat)
    requires Logged(log, m) && (row == m || (m > 0 && row == m - 1))
    ensures Logged(log + [row], row + 1)
  {
    var longer := log + [row];
    assert longer[..|log|] == log;
    if log == [] {
      assert longer == [row];
    }
  }

  lemma BeginIsOrderly(o: Outbox, p: nat, m: nat)
    requires Orderly(o, p, m)
    ensures Orderly(Next(o, Begin), p, m)
    ensures o.dispatcher.Idle? ==> p + |Next(o, Begin).dispatcher.queue| == |o.marks|
  {
    UnpublishedIsTheRest(o.marks, p, 0);
  }

  lemma PublishIsOrderly(o: Outbox, p: nat, m: nat)
    requires Orderly(o, p, m) && o.dispatcher.Dispatching? && !o.dispatcher.sent && o.dispatcher.queue != []
    ensures Orderly(Next(o, Publish), p, p + 1)
  {
    hide Logged;
    var row := o.dispatcher.queue[0];
    assert row == p;
    DeliveryIsLogged(o.log, m, row);
  }

  lemma MarkIsOrderly(o: Outbox, p: nat, m: nat)
    requires Orderly(o, p, m) && o.dispatcher.Dispatching? && o.dispatcher.sent
    ensures Orderly(Next(o, Mark), p + 1, m) && Next(o, Mark).dispatcher.Dispatching?
    ensures Next(o, Mark).dispatcher.queue == o.dispatcher.queue[1..] && |Next(o, Mark).marks| == |o.marks|
  {
    hide Logged;
    var queue := o.dispatcher.queue;
    assert queue[0] == p && p < |o.marks|;
    assert Consecutive(queue[1..], p + 1) by {
      forall k | 0 <= k < |queue[1..]| ensures queue[1..][k] == p + 1 + k {
        assert queue[1..][k] == queue[k + 1];
      }
    }
  }

  lemma StageIsOrderly(o: Outbox, p: nat, m: nat)
    requires Orderly(o, p, m)
    ensures Orderly(Next(o, Stage), p, m)
  {
    hide Logged, Consecutive;
  }

  lemma StopIsOrderly(o: Outbox, p: nat, m: nat)
    requires Orderly(o, p, m)
    ensures Orderly(Next(o, Stop), p, m)
  {
    hide Logged, MarkedPrefix;
  }

  /** The dispatcher has handed a row over and has yet to mark it. */
  predicate Marks(o: Outbox) {
    o.dispatcher.Dispatching? && o.dispatcher.sent
  }

  lemma NextIsOrderly(o: Outbox, step: Step, p: nat, m: nat) returns (p': nat, m': nat)
    requires Orderly(o, p, m)
    ensures Orderly(Next(o, step), p', m') && p <= p' && m <= m'
    ensures p' == if step == Mark && Marks(o) then p + 1 else p
  {
    assert m <= p + 1;
    hide Orderly, UnpublishedFrom;
    p', m' := p, m;
    var d := o.dispatcher;
    match step
    case Stage => StageIsOrderly(o, p, m);
    case Stop => StopIsOrderly(o, p, m);
    case Begin => BeginIsOrderly(o, p, m);
    case Publish =>
      if d.Dispatching? && !d.sent && d.queue != [] {
        PublishIsOrderly(o, p, m);
        m' := p + 1;
      }
    case Mark =>
      if d.Dispatching? && d.sent {
        MarkIsOrderly(o, p, m);
        p' := p + 1;
      }
  }

  lemma {:induction false} RunIsOrderly(o: Outbox, steps: seq<Step>, p: nat, m: nat) returns (p': nat, m': nat)
    requires Orderly(o, p, m)
    ensures Orderly(Run(o, steps), p', m') && p <= p' && m <= m'
    decreases |steps|
  {
    p', m' := p, m;
    if steps == [] {
    } else {
      p', m' := NextIsOrderly(o, steps[0], p, m);
      p', m' := RunIsOrderly(Next(o, steps[0]), steps[1..], p', m');
    }
  }

  /** Across any crashes: the unpublished rows are a suffix, and what the publisher saw, with
      immediate repeats dropped, is the rows in insertion order from the first, covering every
      marked row and at most one unmarked one. Nothing is skipped or reordered. */
  lemma DeliveredInOrder(steps: seq<Step>)
    ensures var o := Run(EMPTY, steps);
            var delivered := |Collapse(o.log)|;
            && Collapse(o.log) == Upto(delivered) && delivered <= |o.marks|
            && (forall i, j :: 0 <= i < j < |o.marks| && o.marks[j] ==> o.marks[i])
            && (forall i :: 0 <= i < |o.marks| && o.marks[i] ==> i < delivered)
            && (forall i :: 0 <= i < delivered - 1 ==> o.marks[i])
  {
    var marked, delivered := RunIsOrderly(EMPTY, steps, 0, 0);
  }

  lemma {:induction false} TicksMark(o: Outbox, p: nat, m: nat)
    requires Orderly(o, p, m) && o.dispatcher.Dispatching? && !o.dispatcher.sent
    requires p + |o.dispatcher.queue| == |o.marks|
    ensures var final := Ticks(o, 2 * |o.dispatcher.queue|);
            |final.marks| == |o.marks| && MarkedPrefix(final.marks, |o.marks|)
    decreases |o.dispatcher.queue|
  {
    if o.dispatcher.queue == [] {
    } else {
      hide Orderly, MarkedPrefix;
      var n := |o.dispatcher.queue|;
      var sent := Next(o, Publish);
      PublishIsOrderly(o, p, m);
      var marked := Next(sent, Mark);
      MarkIsOrderly(sent, p, p + 1);
      TicksMark(marked, p + 1, p + 1);
      assert Ticks(o, 2 * n) == Ticks(sent, 2 * n - 1);
      assert Ticks(sent, 2 * n - 1) == Ticks(marked, 2 * n - 2);
    }
  }

  /** A dispatch that is not interrupted leaves no row unpublished. */
  lemma UninterruptedDispatchFinishes(steps: seq<Step>)
    requires Run(EMPTY, steps).dispatcher.Idle?
    ensures var o := Run(EMPTY, steps);
            var n := |UnpublishedFrom(o.marks, 0)|;
            MarkedPrefix(Ticks(Next(o, Begin), 2 * n).marks, |o.marks|)
  {
    var o := Run(EMPTY, steps);
    var p, m := RunIsOrderly(EMPTY, steps, 0, 0);
    BeginIsOrderly(o, p, m);
    TicksMark(Next(o, Begin), p, m);
  }

  // ---- nothing is lost, and nothing repeated without a cause -------------------------------------

  function CountSteps(steps: seq<Step>, step: Step): nat {
    if steps == [] then 0 else (if steps[0] == step then 1 else 0) + CountSteps(steps[1..], step)
  }

  lemma {:induction false} FirstUnmarked(marks: seq<bool>, from: nat, row: nat)
    requires from <= row < |marks| && !marks[row] && forall r :: from <= r < row ==> marks[r]
    ensures UnpublishedFrom(marks, from) != [] && UnpublishedFrom(marks, from)[0] == row
    decreases |marks| - from
  {
    if marks[from] {
      FirstUnmarked(marks, from + 1, row);
    }
  }

  /** Whatever a dispatcher that stops had handed over without a mark, the next one hands over again:
      it begins with the first row not marked. */
  lemma UnmarkedIsSentAgain(o: Outbox, row: nat)
    requires row < |o.marks| && !o.marks[row] && forall r :: 0 <= r < row ==> o.marks[r]
    ensures Run(o, [Stop, Begin, Publish]).log == o.log + [row]
  {
    FirstUnmarked(o.marks, 0, row);
    var idle := Next(o, Stop);
    var begun := Next(idle, Begin);
    assert begun.dispatcher.queue[0] == row;
    assert [Stop, Begin, Publish][1..] == [Begin, Publish] && [Begin, Publish][1..] == [Publish]
        && [Publish][1..] == [];
    assert Run(begun, [Publish]) == Run(Next(begun, Publish), []);
  }

  /** There are as many rows as were staged. */
  lemma {:induction false} RowsAreTheStaged(o: Outbox, steps: seq<Step>)
    ensures |Run(o, steps).marks| == |o.marks| + CountSteps(steps, Stage)
    decreases |steps|
  {
    if steps == [] {
    } else {
      RowsAreTheStaged(Next(o, steps[0]), steps[1..]);
    }
  }

  /** Each row was delivered once more than the dispatcher stopped, at the most, and a row not yet
      handed over this time no more often than it stopped. */
  ghost predicate FewRepeats(o: Outbox, p: nat, stops: nat) {
    forall row: nat :: multiset(o.log)[row] <= stops + if row < p || (row == p && Marks(o)) then 1 else 0
  }

  lemma PublishRepeatsFew(o: Outbox, p: nat, m: nat, stops: nat)
    requires Orderly(o, p, m) && FewRepeats(o, p, stops)
    ensures FewRepeats(Next(o, Publish), p, stops)
  {
    hide Logged, MarkedPrefix, UnpublishedFrom;
    var d := o.dispatcher;
    if d.Dispatching? && !d.sent && d.queue != [] {
      assert d.queue[0] == p;
      assert multiset(o.log + [p]) == multiset(o.log) + multiset{p};
    }
  }

  lemma NextRepeatsFew(o: Outbox, step: Step, p: nat, m: nat, stops: nat)
    requires Orderly(o, p, m) && FewRepeats(o, p, stops)
    ensures FewRepeats(Next(o, step), if step == Mark && Marks(o) then p + 1 else p,
                       stops + if step == Stop then 1 else 0)
  {
    if step == Publish {
      PublishRepeatsFew(o, p, m, stops);
    } else {
      hide Logged, MarkedPrefix, UnpublishedFrom, Consecutive;
    }
  }

  lemma {:induction false} RunRepeatsFew(o: Outbox, steps: seq<Step>, p: nat, m: nat, stops: nat)
    returns (p': nat, m': nat)
    requires Orderly(o, p, m) && FewRepeats(o, p, stops)
    ensures Orderly(Run(o, steps), p', m') && FewRepeats(Run(o, steps), p', stops + CountSteps(steps, Stop))
    decreases |steps|
  {
    p', m' := p, m;
    if steps == [] {
    } else {
      NextRepeatsFew(o, steps[0], p, m, stops);
      p', m' := NextIsOrderly(o, steps[0], p, m);
      p', m' := RunRepeatsFew(Next(o, steps[0]), steps[1..], p', m', stops + if steps[0] == Stop then 1 else 0);
    }
  }

  /** In every run a row is delivered at most once more often than the dispatcher crashed or
      stopped; so without a stop nothing is ever delivered twice. */
  lemma RepeatsNeedAStop(steps: seq<Step>, row: nat)
    ensures multiset(Run(EMPTY, steps).log)[row] <= 1 + CountSteps(steps, Stop)
  {
    var p, m := RunRepeatsFew(EMPTY, steps, 0, 0, 0);
  }
}
