/**
 Death by objective criteria (src/mitosis/death.py): Pareto domination among near-duplicates,
 and a sweep that kills while it iterates.

 A Cell's id is its row order. A kill changes the killed Cell's status and nothing that
 another Cell's record or funds are computed from.
 */
module Death {
  import opened Basics

  /** A Cell's realised record; `brier` is absent while no prediction has resolved. */
  datatype Record = Record(revenue: int, spend: int, brier: Option<real>, resolved: nat)

  datatype Cell = Cell(genome: nat, status: CellStatus, cash: int, committed: int, held: int, record: Record)

  datatype Finding = BudgetExhausted(cell: nat) | Dominated(cell: nat, peer: nat)

  type Population = seq<Cell>

  function Net(r: Record): int {
    r.revenue - r.spend
  }

  predicate HasRealisedRecord(r: Record) {
    r.spend != 0 || r.revenue != 0 || r.resolved > 0
  }

  predicate BothMeasured(a: Record, b: Record) {
    a.brier.Some? && b.brier.Some?
  }

  /** `_dominates`. */
  predicate Dominates(better: Record, worse: Record) {
    && HasRealisedRecord(better) && HasRealisedRecord(worse)
    && Net(better) >= Net(worse)
    && (BothMeasured(better, worse) ==> better.brier.value <= worse.brier.value)
    && (Net(better) > Net(worse) || (BothMeasured(better, worse) && better.brier.value < worse.brier.value))
  }

  predicate Living(c: Cell) {
    c.status == Alive || c.status == Dormant || c.status == Quarantined
  }

  /** `_budget_exhausted`. */
  predicate Exhausted(c: Cell) {
    c.cash <= 0 && c.committed == 0 && c.held <= 0
  }

  /** `j` is a living near-duplicate of `i` that dominates it. */
  predicate IsDominator(pop: Population, i: nat, j: nat)
    requires i < |pop| && j < |pop|
  {
    Living(pop[j]) && j != i && pop[j].genome == pop[i].genome && Dominates(pop[j].record, pop[i].record)
  }

  /** The first dominator among the first `n` rows. */
  function FirstDominator(pop: Population, i: nat, n: nat): (r: Option<nat>)
    requires i < |pop| && n <= |pop|
    ensures r.Some? ==> r.value < n && IsDominator(pop, i, r.value)
    ensures r.Some? ==> forall j: nat :: j < r.value ==> !IsDominator(pop, i, j)
    ensures r.None? <==> forall j: nat :: j < n ==> !IsDominator(pop, i, j)
  {
    if n == 0 then None
    else
      match FirstDominator(pop, i, n - 1)
      case Some(j) => Some(j)
      case None => if IsDominator(pop, i, n - 1) then Some(n - 1) else None
  }

  /** `findings`, in order: the budget first. */
  function Findings(pop: Population, i: nat): seq<Finding>
    requires i < |pop|
  {
    if pop[i].status == Dead then []
    else
      var dominator := FirstDominator(pop, i, |pop|);
      (if Exhausted(pop[i]) then [BudgetExhausted(i)] else [])
      + (if dominator.Some? then [Dominated(i, dominator.value)] else [])
  }

  datatype Sweep = Sweep(pop: Population, found: seq<Finding>)

  function Kill(pop: Population, i: nat): Population
    requires i < |pop|
  {
    pop[i := pop[i].(status := Dead)]
  }

  /** `reap` over the first `n` rows of the Cells that were living when it began. */
  function ReapFirst(pop: Population, n: nat, dryRun: bool): (s: Sweep)
    requires n <= |pop|
    ensures |s.pop| == |pop|
  {
    if n == 0 then Sweep(pop, [])
    else
      var before := ReapFirst(pop, n - 1, dryRun);
      if !Living(pop[n - 1]) || Findings(before.pop, n - 1) == [] then before
      else
        Sweep(if dryRun then before.pop else Kill(before.pop, n - 1),
              before.found + [Findings(before.pop, n - 1)[0]])
  }

  function Reap(pop: Population, dryRun: bool): (s: Sweep)
    ensures |s.pop| == |pop|
  {
    ReapFirst(pop, |pop|, dryRun)
  }

  // ---- the sweep as the program runs it ------------------------------------------------------

  class Reaper {
    var cells: Population

    constructor (pop: Population)
      ensures cells == pop
    {
      cells := pop;
    }

    method DominatedBy(i: nat) returns (peer: Option<nat>)
      requires i < |cells|
      ensures peer == FirstDominator(cells, i, |cells|)
    {
      for j := 0 to |cells|
        invariant FirstDominator(cells, i, j) == None
      {
        if Living(cells[j]) && j != i && cells[j].genome == cells[i].genome
           && Dominates(cells[j].record, cells[i].record)
        {
          FirstStaysFirst(cells, i, j, |cells|);
          return Some(j);
        }
      }
      return None;
    }

    method FindingsOf(i: nat) returns (found: seq<Finding>)
      requires i < |cells|
      ensures found == Findings(cells, i)
    {
      if cells[i].status == Dead {
        return [];
      }
      found := [];
      if Exhausted(cells[i]) {
        found := [BudgetExhausted(i)];
      }
      var peer := DominatedBy(i);
      if peer.Some? {
        found := found + [Dominated(i, peer.value)];
      }
    }

    /** `reap`: the list of living Cells is taken once, the findings are taken at each turn. */
    method ReapLiving(dryRun: bool) returns (results: seq<Finding>)
      modifies this
      ensures Sweep(cells, results) == Reap(old(cells), dryRun)
    {
      hide Findings;
      var snapshot := cells;
      results := [];
      for i := 0 to |snapshot|
        invariant |cells| == |snapshot|
        invariant Sweep(cells, results) == ReapFirst(snapshot, i, dryRun)
      {
        if Living(snapshot[i]) {
          var found := FindingsOf(i);
          if found != [] {
            results := results + [found[0]];
            if !dryRun {
              cells := cells[i := cells[i].(status := Dead)];
            }
          }
        }
      }
    }
  }

  lemma {:induction false} FirstStaysFirst(pop: Population, i: nat, j: nat, n: nat)
    requires i < |pop| && j < n <= |pop| && FirstDominator(pop, i, j) == None && IsDominator(pop, i, j)
    ensures FirstDominator(pop, i, n) == Some(j)
    decreases n
  {
    if j == n - 1 {
    } else {
      FirstStaysFirst(pop, i, j, n - 1);
    }
  }

  // ---- domination is Pareto domination ------------------------------------------------------------

  datatype Dimension = Money | Calibration

  /** How good a record is on a dimension, if it has evidence on it: more is better. */
  function Score(r: Record, d: Dimension): Option<real> {
    match d
    case Money => Some(r.revenue as real - r.spend as real)
    case Calibration => if r.brier.Some? then Some(-r.brier.value) else None
  }

  predicate Measured(a: Record, b: Record, d: Dimension) {
    Score(a, d).Some? && Score(b, d).Some?
  }

  /** Spent nothing, earned nothing, and had no prediction resolved. */
  predicate Idle(r: Record) {
    r.spend == 0 && r.revenue == 0 && r.resolved == 0
  }

  /** At least as good wherever both have evidence, better somewhere, and neither of them idle. */
  ghost predicate Superior(a: Record, b: Record) {
    && !Idle(a) && !Idle(b)
    && (forall d :: Measured(a, b, d) ==> Score(a, d).value >= Score(b, d).value)
    && (exists d :: Measured(a, b, d) && Score(a, d).value > Score(b, d).value)
  }

  /** Domination is Pareto domination, and an idle Cell neither dominates nor is dominated. */
  lemma DominationIsPareto(a: Record, b: Record)
    ensures Dominates(a, b) <==> Superior(a, b)
    ensures Idle(a) || Idle(b) ==> !Dominates(a, b)
  {
    assert Measured(a, b, Money) && (Measured(a, b, Calibration) <==> BothMeasured(a, b));
    assert Score(a, Money).value >= Score(b, Money).value <==> Net(a) >= Net(b);
    if Dominates(a, b) {
      assert Score(a, Money).value > Score(b, Money).value
          || (Measured(a, b, Calibration) && Score(a, Calibration).value > Score(b, Calibration).value);
    }
  }

  // ---- domination is acyclic though not transitive ---------------------------------------------

  /** A strict order that domination refines. */
  predicate Above(a: Record, b: Record) {
    Net(a) > Net(b) || (Net(a) == Net(b) && BothMeasured(a, b) && a.brier.value < b.brier.value)
  }

  lemma DominationRefinesAbove(a: Record, b: Record)
    requires Dominates(a, b)
    ensures Above(a, b) && !Dominates(b, a)
  {}

  /** Domination passes on exactly unless the two ends are both measured and the upper one is
      worse calibrated, which takes an unmeasured Cell between them. */
  lemma TransitiveExactlyUnlessWorseCalibrated(a: Record, b: Record, c: Record)
    requires Dominates(a, b) && Dominates(b, c)
    ensures Dominates(a, c) <==> !(BothMeasured(a, c) && a.brier.value > c.brier.value)
    ensures !Dominates(a, c) ==> b.brier.None?
  {}

  lemma NotTransitive()
    ensures exists a, b, c :: Dominates(a, b) && Dominates(b, c) && !Dominates(a, c)
  {
    var a, b, c := Record(2, 0, Some(0.9), 1), Record(1, 0, None, 0), Record(0, 0, Some(0.1), 1);
    assert Dominates(a, b) && Dominates(b, c) && !Dominates(a, c);
  }

  ghost predicate Chain(rs: seq<Record>) {
    forall k :: 0 < k < |rs| ==> Dominates(rs[k - 1], rs[k])
  }

  lemma {:induction false} ChainDescends(rs: seq<Record>)
    requires Chain(rs) && |rs| >= 2
    ensures Above(rs[0], rs[|rs| - 1])
  {
    var n := |rs| - 1;
    assert Dominates(rs[n - 1], rs[n]);
    if n == 1 {
    } else {
      ChainDescends(rs[..n]);
    }
  }

  /** No chain of dominations, however long, returns to where it began. */
  lemma NoCycles(rs: seq<Record>)
    requires Chain(rs) && |rs| >= 2
    ensures rs[0] != rs[|rs| - 1]
  {
    ChainDescends(rs);
  }

  // ---- an undominated member -----------------------------------------------------------------------

  ghost predicate Undominated(pop: Population, i: nat)
    requires i < |pop|
  {
    forall j: nat :: j < |pop| ==> !IsDominator(pop, i, j)
  }

  ghost function Higher(pop: Population, i: nat): set<nat>
    requires i < |pop|
  {
    set k | k in Indices(|pop|) && k < |pop| && Above(pop[k].record, pop[i].record)
  }

  lemma ClimbingShrinks(pop: Population, i: nat, j: nat)
    requires i < |pop| && j < |pop| && Above(pop[j].record, pop[i].record)
    ensures |Higher(pop, j)| < |Higher(pop, i)|
  {
    assert j in Higher(pop, i) && j !in Higher(pop, j);
    assert Higher(pop, j) < Higher(pop, i);
    SubsetSize(Higher(pop, j), Higher(pop, i));
  }

  /** Every living Cell's class has a living undominated member: itself, or one above it. */
  lemma {:induction false} ClimbToTop(pop: Population, i: nat) returns (j: nat)
    requires i < |pop| && Living(pop[i])
    ensures j < |pop| && Living(pop[j]) && pop[j].genome == pop[i].genome && Undominated(pop, j)
    ensures j == i || Above(pop[j].record, pop[i].record)
    decreases |Higher(pop, i)|
  {
    if Undominated(pop, i) {
      j := i;
    } else {
      var k: nat :| k < |pop| && IsDominator(pop, i, k);
      DominationRefinesAbove(pop[k].record, pop[i].record);
      ClimbingShrinks(pop, i, k);
      j := ClimbToTop(pop, k);
    }
  }

  // ---- what a sweep does ------------------------------------------------------------------------------

  ghost predicate OnlyKills(pop: Population, pop': Population) {
    |pop'| == |pop| && forall i :: 0 <= i < |pop| ==>
        pop'[i] == pop[i] || (Living(pop[i]) && pop'[i] == pop[i].(status := Dead))
  }

  lemma {:induction false} SweepAt(pop: Population, n: nat, dryRun: bool, i: nat)
    requires n <= |pop| && i < |pop|
    ensures var c := ReapFirst(pop, n, dryRun).pop[i];
            c == pop[i] || (!dryRun && i < n && Living(pop[i]) && c == pop[i].(status := Dead))
  {
    hide Findings, Living;
    if n == 0 {
    } else {
      SweepAt(pop, n - 1, dryRun, i);
    }
  }

  lemma SweepOnlyKills(pop: Population, n: nat)
    requires n <= |pop|
    ensures OnlyKills(pop, ReapFirst(pop, n, false).pop)
    ensures forall i :: n <= i < |pop| ==> ReapFirst(pop, n, false).pop[i] == pop[i]
  {
    forall i | 0 <= i < |pop|
      ensures var c := ReapFirst(pop, n, false).pop[i];
              c == pop[i] || (i < n && Living(pop[i]) && c == pop[i].(status := Dead))
    {
      SweepAt(pop, n, false, i);
    }
  }

  lemma {:induction false} DryRunKillsNobody(pop: Population, n: nat)
    requires n <= |pop|
    ensures ReapFirst(pop, n, true).pop == pop
  {
    hide Findings, Living;
    if n == 0 {
    } else {
      DryRunKillsNobody(pop, n - 1);
    }
  }

  /** Cell `i` dies in the executed sweep. */
  ghost predicate Dies(pop: Population, i: nat)
    requires i < |pop|
  {
    Living(pop[i]) && Reap(pop, false).pop[i].status == Dead
  }

  /** Cell `i` is in the dry run's findings. */
  ghost predicate Listed(pop: Population, i: nat)
    requires i < |pop|
  {
    Living(pop[i]) && (Exhausted(pop[i]) || !Undominated(pop, i))
  }

  lemma OtherTurnLeavesAlone(pop: Population, i: nat, n: nat)
    requires i < n < |pop|
    ensures ReapFirst(pop, n + 1, false).pop[i] == ReapFirst(pop, n, false).pop[i]
  {
    hide Findings, Living;
  }

  lemma {:induction false} LaterTurnsLeaveAlone(pop: Population, i: nat, n: nat)
    requires i < n <= |pop|
    ensures ReapFirst(pop, n, false).pop[i] == ReapFirst(pop, i + 1, false).pop[i]
    decreases n
  {
    hide ReapFirst;
    if i == n - 1 {
    } else {
      LaterTurnsLeaveAlone(pop, i, n - 1);
      OtherTurnLeavesAlone(pop, i, n - 1);
    }
  }

  /** A living near-duplicate with the superior record. */
  ghost predicate Outdone(pop: Population, i: nat, j: nat)
    requires i < |pop| && j < |pop|
  {
    && pop[j].status in {Alive, Dormant, Quarantined} && pop[j].genome == pop[i].genome
    && Superior(pop[j].record, pop[i].record)
  }

  lemma OutdoneIsDominated(pop: Population, i: nat, j: nat)
    requires i < |pop| && j < |pop|
    ensures IsDominator(pop, i, j) <==> Outdone(pop, i, j)
  {
    DominationIsPareto(pop[j].record, pop[i].record);
    hide Superior;
  }

  /** No money, nothing in flight and no sale money held back. */
  predicate NothingLeft(c: Cell) {
    !(c.cash > 0 || c.committed != 0 || c.held > 0)
  }

  /** A near-duplicate that still lives at Cell `i`'s turn: one later in row order, or spared. */
  ghost predicate OutdoneAtTurn(pop: Population, i: nat, j: nat)
    requires i < |pop|
  {
    j < |pop| && Outdone(pop, i, j) && (j > i || !Dies(pop, j))
  }

  /** A dominator that still lives at Cell `i`'s turn. */
  ghost predicate DominatedAtTurn(pop: Population, i: nat, j: nat)
    requires i < |pop|
  {
    j < |pop| && IsDominator(pop, i, j) && (j > i || !Dies(pop, j))
  }

  lemma TurnsExactly(pop: Population, i: nat)
    requires i < |pop| && Living(pop[i])
    ensures var turn := ReapFirst(pop, i, false).pop;
            && turn[i] == pop[i]
            && forall j: nat :: j < |pop| ==> (IsDominator(turn, i, j) <==> DominatedAtTurn(pop, i, j))
  {
    var turn := ReapFirst(pop, i, false).pop;
    SweepOnlyKills(pop, i);
    assert turn[i] == pop[i];
    forall j: nat | j < |pop|
      ensures IsDominator(turn, i, j) <==> DominatedAtTurn(pop, i, j)
    {
      if j < i {
        LaterTurnsLeaveAlone(pop, j, |pop|);
        LaterTurnsLeaveAlone(pop, j, i);
      }
    }
  }

  lemma DiesAtTurn(pop: Population, i: nat)
    requires i < |pop|
    ensures Dies(pop, i) <==> Living(pop[i]) && (Exhausted(pop[i]) || exists j: nat :: DominatedAtTurn(pop, i, j))
  {
    LaterTurnsLeaveAlone(pop, i, |pop|);
    if Living(pop[i]) {
      TurnsExactly(pop, i);
    }
  }

  lemma OutdoneAtTurnExactly(pop: Population, i: nat)
    requires i < |pop|
    ensures forall j: nat :: OutdoneAtTurn(pop, i, j) <==> DominatedAtTurn(pop, i, j)
  {
    forall j: nat ensures OutdoneAtTurn(pop, i, j) <==> DominatedAtTurn(pop, i, j) {
      if j < |pop| { OutdoneIsDominated(pop, i, j); }
    }
  }

  /** A Cell dies exactly when it was living and, at its own turn, has nothing left or is outdone
      by a near-duplicate that still lives: one later in row order, or an earlier one spared. */
  lemma DiesExactly(pop: Population, i: nat)
    requires i < |pop|
    ensures Dies(pop, i) <==>
              && pop[i].status in {Alive, Dormant, Quarantined}
              && (NothingLeft(pop[i]) || exists j: nat :: OutdoneAtTurn(pop, i, j))
  {
    DiesAtTurn(pop, i);
    OutdoneAtTurnExactly(pop, i);
    hide OutdoneAtTurn, DominatedAtTurn, Dies;
  }

  /** The criteria a Cell meets at any moment: none once it is dead; that it has nothing left; and
      the first near-duplicate in row order that outdoes it. At most these two, the funds first. */
  lemma FindingsAreExact(pop: Population, i: nat, f: Finding)
    requires i < |pop|
    ensures f in Findings(pop, i) <==>
              && pop[i].status != Dead && f.cell == i
              && match f
                 case BudgetExhausted(_) => NothingLeft(pop[i])
                 case Dominated(_, peer) =>
                   && peer < |pop| && Outdone(pop, i, peer)
                   && forall j: nat :: j < peer ==> !Outdone(pop, i, j)
    ensures |Findings(pop, i)| <= 2
    ensures |Findings(pop, i)| == 2 ==> Findings(pop, i)[0] == BudgetExhausted(i)
  {
    forall j: nat | j < |pop| ensures IsDominator(pop, i, j) <==> Outdone(pop, i, j) {
      OutdoneIsDominated(pop, i, j);
    }
    hide IsDominator, Outdone;
  }

  /** The executed sweep records one cause for each death and nothing else: that the Cell has
      nothing left, or else the first near-duplicate in row order that outdoes it at its turn. */
  lemma CausesAreExact(pop: Population, f: Finding)
    ensures f in Reap(pop, false).found <==>
              && f.cell < |pop| && Dies(pop, f.cell)
              && match f
                 case BudgetExhausted(i) => NothingLeft(pop[i])
                 case Dominated(i, peer) =>
                   && !NothingLeft(pop[i]) && OutdoneAtTurn(pop, i, peer)
                   && forall j: nat :: j < peer ==> !OutdoneAtTurn(pop, i, j)
  {
    FoundExactly(pop, |pop|, false, f);
    if f.cell < |pop| && Living(pop[f.cell]) {
      DiesAtTurn(pop, f.cell);
      TurnsExactly(pop, f.cell);
      OutdoneAtTurnExactly(pop, f.cell);
      hide OutdoneAtTurn, ReapFirst, Dies, IsDominator;
    }
  }

  lemma FindingsMeanListed(pop: Population, i: nat)
    requires i < |pop|
    ensures Listed(pop, i) <==> Living(pop[i]) && Findings(pop, i) != []
  {}

  /** What Cell `i` is found to be at its own turn. */
  ghost predicate FoundAtTurn(pop: Population, dryRun: bool, f: Finding)
    requires f.cell < |pop|
  {
    var turn := ReapFirst(pop, f.cell, dryRun).pop;
    Living(pop[f.cell]) && Findings(turn, f.cell) != [] && f == Findings(turn, f.cell)[0]
  }

  lemma FindingsNameTheirCell(pop: Population, i: nat)
    requires i < |pop| && Findings(pop, i) != []
    ensures Findings(pop, i)[0].cell == i
  {}

  lemma {:induction false} FoundExactly(pop: Population, n: nat, dryRun: bool, f: Finding)
    requires n <= |pop|
    ensures f in ReapFirst(pop, n, dryRun).found <==> f.cell < n && FoundAtTurn(pop, dryRun, f)
  {
    hide Findings, Living;
    if n == 0 {
    } else {
      FoundExactly(pop, n - 1, dryRun, f);
      var before := ReapFirst(pop, n - 1, dryRun);
      if Findings(before.pop, n - 1) != [] { FindingsNameTheirCell(before.pop, n - 1); }
    }
  }

  /** The findings come in row order, so no Cell has two. */
  lemma {:induction false} FoundInOrder(pop: Population, n: nat, dryRun: bool)
    requires n <= |pop|
    ensures var found := ReapFirst(pop, n, dryRun).found;
            forall a, b :: 0 <= a < b < |found| ==> found[a].cell < found[b].cell
  {
    hide Findings, Living;
    if n == 0 {
    } else {
      FoundInOrder(pop, n - 1, dryRun);
      var before := ReapFirst(pop, n - 1, dryRun);
      if Findings(before.pop, n - 1) != [] { FindingsNameTheirCell(before.pop, n - 1); }
      forall a | 0 <= a < |before.found| ensures before.found[a].cell < n - 1 {
        FoundExactly(pop, n - 1, dryRun, before.found[a]);
        assert before.found[a] in before.found;
      }
    }
  }

  /** The dry run lists exactly the Cells with a finding. */
  lemma DryRunLists(pop: Population, i: nat)
    requires i < |pop|
    ensures Listed(pop, i) <==> exists f :: f in Reap(pop, true).found && f.cell == i
  {
    DryRunKillsNobody(pop, i);
    FindingsMeanListed(pop, i);
    hide Listed, Findings, ReapFirst, Living;
    forall f: Finding | f.cell == i ensures f in Reap(pop, true).found <==> FoundAtTurn(pop, true, f) {
      FoundExactly(pop, |pop|, true, f);
    }
    if Listed(pop, i) { assert FoundAtTurn(pop, true, Findings(pop, i)[0]); }
  }

  /** Executed kills are among the dry run's findings, exhausted Cells dying for that reason. */
  lemma DeathsWereListed(pop: Population, i: nat)
    requires i < |pop| && Dies(pop, i)
    ensures Listed(pop, i)
  {
    DiesAtTurn(pop, i);
  }

  /** The condition under which the dry run told the truth, read off the population before. */
  ghost predicate DryRunIsExact(pop: Population) {
    forall i: nat :: i < |pop| && Living(pop[i]) && !Exhausted(pop[i]) && !Undominated(pop, i) ==>
      exists j: nat :: j < |pop| && IsDominator(pop, i, j) && (j > i || !Listed(pop, j))
  }

  /** Every Cell the dry run lists dies when it is executed, exactly when each dominated Cell
      that has funds has a dominator later in row order or one with no finding of its own. */
  lemma DryRunToldTheTruth(pop: Population)
    ensures (forall i: nat :: i < |pop| && Listed(pop, i) ==> Dies(pop, i)) <==> DryRunIsExact(pop)
  {
    if DryRunIsExact(pop) {
      forall i: nat | i < |pop| && Listed(pop, i) ensures Dies(pop, i) {
        DiesAtTurn(pop, i);
        if !Exhausted(pop[i]) {
          var j: nat :| j < |pop| && IsDominator(pop, i, j) && (j > i || !Listed(pop, j));
          if Dies(pop, j) { DeathsWereListed(pop, j); }
          assert DominatedAtTurn(pop, i, j);
        }
      }
    }
    if forall i: nat :: i < |pop| && Listed(pop, i) ==> Dies(pop, i) {
      forall i: nat | i < |pop| && Living(pop[i]) && !Exhausted(pop[i]) && !Undominated(pop, i)
        ensures exists j: nat :: j < |pop| && IsDominator(pop, i, j) && (j > i || !Listed(pop, j))
      {
        assert Listed(pop, i);
        DiesAtTurn(pop, i);
        var j: nat :| DominatedAtTurn(pop, i, j);
        assert j > i || !Listed(pop, j);
      }
    }
  }

  /** The dry run can promise a death that does not happen: Cell 1's only dominator is
      exhausted, comes first, and is dead by Cell 1's turn. */
  lemma DryRunCanPromiseTooMuch()
    ensures exists pop, i: nat :: i < |pop| && Listed(pop, i) && !Dies(pop, i)
  {
    var upper := Cell(0, Alive, 0, 0, 0, Record(2, 0, None, 0));
    var lower := Cell(0, Alive, 5, 0, 0, Record(1, 0, None, 0));
    var pop := [upper, lower];
    assert Exhausted(pop[0]) && IsDominator(pop, 1, 0);
    DiesAtTurn(pop, 0);
    DiesAtTurn(pop, 1);
    assert Listed(pop, 1) && !Dies(pop, 1);
  }

  // ---- near-duplicate classes through a sweep ------------------------------------------------------------

  /** An undominated Cell with funds survives every sweep. */
  lemma TopSurvives(pop: Population, i: nat)
    requires i < |pop| && Living(pop[i]) && Undominated(pop, i) && !Exhausted(pop[i])
    ensures !Dies(pop, i)
  {
    DiesAtTurn(pop, i);
  }

  /** No sweep empties a class by domination: a class with a living member keeps one alive, or
      its undominated member had run out of funds. */
  lemma ClassOutlivesDomination(pop: Population, i: nat) returns (top: nat)
    requires i < |pop| && Living(pop[i])
    ensures top < |pop| && Living(pop[top]) && pop[top].genome == pop[i].genome && Undominated(pop, top)
    ensures Dies(pop, top) <==> Exhausted(pop[top])
  {
    top := ClimbToTop(pop, i);
    DiesAtTurn(pop, top);
  }

  /** Every living member of `genome` has a Brier score and funds. */
  ghost predicate FullyMeasured(pop: Population, genome: nat) {
    forall k: nat :: k < |pop| && Living(pop[k]) && pop[k].genome == genome ==>
      pop[k].record.brier.Some? && !Exhausted(pop[k])
  }

  /** In a fully measured class domination is transitive, so climbing ends at a dominator. */
  lemma {:induction false} ClimbMeasured(pop: Population, i: nat, k: nat) returns (j: nat)
    requires i < |pop| && Living(pop[i]) && FullyMeasured(pop, pop[i].genome)
    requires k < |pop| && IsDominator(pop, i, k)
    ensures j < |pop| && IsDominator(pop, i, j) && Undominated(pop, j)
    decreases |Higher(pop, k)|
  {
    if Undominated(pop, k) {
      j := k;
    } else {
      var l: nat :| l < |pop| && IsDominator(pop, k, l);
      TransitiveExactlyUnlessWorseCalibrated(pop[l].record, pop[k].record, pop[i].record);
      DominationRefinesAbove(pop[l].record, pop[k].record);
      DominationRefinesAbove(pop[l].record, pop[i].record);
      ClimbingShrinks(pop, k, l);
      j := ClimbMeasured(pop, i, l);
    }
  }

  /** In such a class the dry run is exact: its members die exactly when they are dominated. */
  lemma MeasuredClassesAreExact(pop: Population, i: nat)
    requires i < |pop| && Living(pop[i]) && FullyMeasured(pop, pop[i].genome)
    ensures Dies(pop, i) <==> Listed(pop, i)
  {
    DiesAtTurn(pop, i);
    if Listed(pop, i) {
      var k: nat :| k < |pop| && IsDominator(pop, i, k);
      var j := ClimbMeasured(pop, i, k);
      TopSurvives(pop, j);
      assert DominatedAtTurn(pop, i, j);
    }
  }

  /** An executed sweep leaves nothing to find: a second one kills nobody. */
  lemma SweepIsFinal(pop: Population, i: nat)
    requires i < |pop|
    ensures !Listed(Reap(pop, false).pop, i)
  {
    var after := Reap(pop, false).pop;
    SweepOnlyKills(pop, |pop|);
    DiesAtTurn(pop, i);
    if Living(after[i]) {
      assert after[i] == pop[i] && !Dies(pop, i);
      forall j: nat | j < |pop| ensures !IsDominator(after, i, j) {
        assert !DominatedAtTurn(pop, i, j);
      }
    }
  }
}
