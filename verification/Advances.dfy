/**
 Advances on held sales (src/mitosis/advances.py): an operator policy of which the latest
 counts, loans derived from the ledger, and repayment when a hold is released.

 Money is in minor units. A policy's share is taken by integer division, where the program
 divides in floating point and floors.
 */
module Advances {
  import opened Basics

  const FULL_BASIS_POINTS := 10_000

  datatype Policy = Policy(basisPoints: int, maxOutstanding: int)

  datatype Kind = Advance | Repayment | Unrelated

  /** One ledger transaction between a Cell's cash and the funding account. */
  datatype Transaction = Transaction(kind: Kind, cell: nat, cash: int, funding: int)

  datatype Book = Book(policies: seq<Policy>, ledger: seq<Transaction>)

  datatype Error = BasisPointsOutOfRange | NegativeCap | Unsigned

  /** `declare_policy`. */
  function Declare(b: Book, basisPoints: int, maxOutstanding: int, signed: bool): Result<Book, Error> {
    if !(0 <= basisPoints <= FULL_BASIS_POINTS) then Err(BasisPointsOutOfRange)
    else if maxOutstanding < 0 then Err(NegativeCap)
    else if !signed then Err(Unsigned)
    else Ok(b.(policies := b.policies + [Policy(basisPoints, maxOutstanding)]))
  }

  function CurrentPolicy(b: Book): Option<Policy> {
    if b.policies == [] then None else Some(b.policies[|b.policies| - 1])
  }

  /** `outstanding`: a Cell's advances less its repayments, read off the ledger. */
  function Outstanding(ledger: seq<Transaction>, cell: nat): int {
    if ledger == [] then 0
    else
      var t := ledger[|ledger| - 1];
      Outstanding(ledger[..|ledger| - 1], cell) + if t.kind != Unrelated && t.cell == cell then t.cash else 0
  }

  function AdvanceAmount(b: Book, cell: nat, held: int): int {
    match CurrentPolicy(b)
    case None => 0
    case Some(p) => Min(held * p.basisPoints / FULL_BASIS_POINTS, p.maxOutstanding - Outstanding(b.ledger, cell))
  }

  /** `_advance_locked`, run inside the transaction that took the hold. */
  function Hold(b: Book, cell: nat, held: int): Book {
    var p := CurrentPolicy(b);
    if p.None? || p.value.basisPoints == 0 then b
    else
      var amount := AdvanceAmount(b, cell, held);
      if amount <= 0 then b
      else b.(ledger := b.ledger + [Transaction(Advance, cell, amount, -amount)])
  }

  /** `_repay_locked`, run inside the transaction that released a hold. */
  function Release(b: Book, cell: nat, released: int): Book {
    var amount := Min(Outstanding(b.ledger, cell), released);
    if amount <= 0 then b
    else b.(ledger := b.ledger + [Transaction(Repayment, cell, -amount, amount)])
  }

  datatype Op =
    | DoDeclare(basisPoints: int, maxOutstanding: int, signed: bool)
    | DoHold(cell: nat, held: nat)
    | DoRelease(cell: nat, released: nat)
    | Post(cell: nat, cash: int, funding: int)

  function Next(b: Book, op: Op): Book {
    match op
    case DoDeclare(bp, cap, signed) => var r := Declare(b, bp, cap, signed); if r.Ok? then r.value else b
    case DoHold(cell, held) => Hold(b, cell, held)
    case DoRelease(cell, released) => Release(b, cell, released)
    case Post(cell, cash, funding) => b.(ledger := b.ledger + [Transaction(Unrelated, cell, cash, funding)])
  }

  function Run(b: Book, ops: seq<Op>): Book
    decreases |ops|
  {
    if ops == [] then b else Run(Next(b, ops[0]), ops[1..])
  }

  const EMPTY := Book([], [])

  // ---- as the program runs it ----------------------------------------------------------

  class AdvanceDesk {
    var policies: seq<Policy>
    var ledger: seq<Transaction>

    constructor ()
      ensures Valid() && State() == EMPTY
    {
      policies, ledger := [], [];
    }

    /** Every recorded policy passed the checks of `declare_policy`. */
    ghost predicate Valid()
      reads this
    {
      SoundPolicies(policies)
    }

    function State(): Book
      reads this
    {
      Book(policies, ledger)
    }

    method DeclarePolicy(basisPoints: int, maxOutstanding: int, signed: bool) returns (failed: Option<Error>)
      requires Valid()
      modifies this`policies
      ensures Valid()
      ensures match Declare(old(State()), basisPoints, maxOutstanding, signed)
              case Ok(b) => State() == b && failed == None
              case Err(e) => State() == old(State()) && failed == Some(e)
    {
      if basisPoints < 0 || basisPoints > FULL_BASIS_POINTS {
        return Some(BasisPointsOutOfRange);
      }
      if maxOutstanding < 0 {
        return Some(NegativeCap);
      }
      if !signed {
        return Some(Unsigned);
      }
      policies := policies + [Policy(basisPoints, maxOutstanding)];
      return None;
    }

    method Owed(cell: nat) returns (total: int)
      ensures total == Outstanding(ledger, cell)
    {
      total := 0;
      for i := 0 to |ledger|
        invariant total == Outstanding(ledger[..i], cell)
      {
        assert ledger[..i + 1][..i] == ledger[..i];
        if ledger[i].kind != Unrelated && ledger[i].cell == cell {
          total := total + ledger[i].cash;
        }
      }
      assert ledger[..|ledger|] == ledger;
    }

    method AdvanceAgainst(cell: nat, held: nat) returns (amount: nat)
      requires Valid()
      modifies this`ledger
      ensures Valid()
      ensures State() == Hold(old(State()), cell, held)
      ensures Outstanding(ledger, cell) == old(Outstanding(ledger, cell)) + amount
      ensures amount <= held
    {
      if policies == [] || policies[|policies| - 1].basisPoints == 0 {
        return 0;
      }
      var p := policies[|policies| - 1];
      var owed := Owed(cell);
      var due := Min(held * p.basisPoints / FULL_BASIS_POINTS, p.maxOutstanding - owed);
      if due <= 0 {
        return 0;
      }
      ShareIsAtMostTheWhole(held, p.basisPoints);
      ledger := ledger + [Transaction(Advance, cell, due, -due)];
      assert ledger[..|ledger| - 1] == old(ledger);
      return due;
    }

    method RepayFrom(cell: nat, released: nat) returns (amount: nat)
      requires Valid()
      modifies this`ledger
      ensures Valid()
      ensures State() == Release(old(State()), cell, released)
      ensures Outstanding(ledger, cell) == old(Outstanding(ledger, cell)) - amount
      ensures amount <= released
    {
      var owed := Owed(cell);
      var due := Min(owed, released);
      if due <= 0 {
        return 0;
      }
      ledger := ledger + [Transaction(Repayment, cell, -due, due)];
      assert ledger[..|ledger| - 1] == old(ledger);
      return due;
    }
  }

  lemma ShareIsAtMostTheWhole(held: nat, basisPoints: int)
    requires 0 <= basisPoints <= FULL_BASIS_POINTS
    ensures 0 <= held * basisPoints / FULL_BASIS_POINTS <= held
  {
    assert 0 <= held * basisPoints <= held * FULL_BASIS_POINTS;
  }

  // ---- what every run keeps --------------------------------------------------------------------

  function LargestCap(policies: seq<Policy>): (m: nat)
    ensures forall i :: 0 <= i < |policies| ==> policies[i].maxOutstanding <= m
    ensures m > 0 ==> exists i :: 0 <= i < |policies| && policies[i].maxOutstanding == m
  {
    if policies == [] then 0
    else
      var rest := LargestCap(policies[..|policies| - 1]);
      if policies[|policies| - 1].maxOutstanding > rest then policies[|policies| - 1].maxOutstanding else rest
  }

  ghost predicate SoundPolicies(policies: seq<Policy>) {
    forall i :: 0 <= i < |policies| ==>
        0 <= policies[i].basisPoints <= FULL_BASIS_POINTS && policies[i].maxOutstanding >= 0
  }

  ghost predicate WithinCaps(b: Book) {
    SoundPolicies(b.policies) && forall cell: nat :: 0 <= Outstanding(b.ledger, cell) <= LargestCap(b.policies)
  }

  lemma OneMore(ledger: seq<Transaction>, t: Transaction, cell: nat)
    ensures Outstanding(ledger + [t], cell)
         == Outstanding(ledger, cell) + if t.kind != Unrelated && t.cell == cell then t.cash else 0
  {
    assert (ledger + [t])[..|ledger|] == ledger;
  }

  lemma HoldAdds(b: Book, cell: nat, held: nat, other: nat)
    requires SoundPolicies(b.policies)
    ensures CurrentPolicy(b).None? || CurrentPolicy(b).value.basisPoints == 0 ==> Hold(b, cell, held) == b
    ensures CurrentPolicy(b).Some? ==>
              var added := Outstanding(Hold(b, cell, held).ledger, other) - Outstanding(b.ledger, other);
              added == if other == cell then Max(0, AdvanceAmount(b, cell, held)) else 0
  {
    if CurrentPolicy(b).Some? {
      ShareIsAtMostTheWhole(held, CurrentPolicy(b).value.basisPoints);
      var amount := AdvanceAmount(b, cell, held);
      OneMore(b.ledger, Transaction(Advance, cell, amount, -amount), other);
    }
  }

  lemma HoldStaysWithinCaps(b: Book, cell: nat, held: nat, other: nat)
    requires SoundPolicies(b.policies) && 0 <= Outstanding(b.ledger, other) <= LargestCap(b.policies)
    ensures 0 <= Outstanding(Hold(b, cell, held).ledger, other) <= LargestCap(b.policies)
  {
    HoldAdds(b, cell, held, other);
    hide Hold;
  }

  lemma NextStaysWithinCaps(b: Book, op: Op)
    requires WithinCaps(b)
    ensures WithinCaps(Next(b, op))
  {
    var b' := Next(b, op);
    if |b'.policies| > |b.policies| {
      assert b'.policies[..|b.policies|] == b.policies;
      assert LargestCap(b'.policies) >= LargestCap(b.policies);
    }
    forall cell: nat ensures 0 <= Outstanding(b'.ledger, cell) <= LargestCap(b'.policies) {
      assert 0 <= Outstanding(b.ledger, cell) <= LargestCap(b.policies);
      if op.DoHold? {
        HoldStaysWithinCaps(b, op.cell, op.held, cell);
      } else if b'.ledger != b.ledger {
        OneMore(b.ledger, b'.ledger[|b.ledger|], cell);
      }
    }
  }

  lemma {:induction false} RunStaysWithinCaps(b: Book, ops: seq<Op>)
    requires WithinCaps(b)
    ensures WithinCaps(Run(b, ops))
    decreases |ops|
  {
    if ops == [] {
    } else {
      NextStaysWithinCaps(b, ops[0]);
      RunStaysWithinCaps(Next(b, ops[0]), ops[1..]);
    }
  }

  /** In every run of policies, holds, releases and unrelated postings, no Cell ever owes less
      than nothing or more than the largest cap ever declared. */
  lemma DebtStaysWithinCaps(ops: seq<Op>, cell: nat)
    ensures 0 <= Outstanding(Run(EMPTY, ops).ledger, cell) <= LargestCap(Run(EMPTY, ops).policies)
  {
    RunStaysWithinCaps(EMPTY, ops);
  }

  /** The share in ten-thousandths, as far as the cap leaves room. */
  function Lent(held: nat, p: Policy, debt: int): int {
    Max(0, Min(held * p.basisPoints / 10_000, p.maxOutstanding - debt))
  }

  /** What one hold lends: nothing without a positive share, and otherwise the share of it that
      the current cap leaves room for, never more than the hold. */
  lemma HoldLends(ops: seq<Op>, cell: nat, held: nat)
    ensures var b := Run(EMPTY, ops);
            var lent := Outstanding(Hold(b, cell, held).ledger, cell) - Outstanding(b.ledger, cell);
            && 0 <= lent <= held
            && (CurrentPolicy(b).None? ==> lent == 0)
            && (CurrentPolicy(b).Some? ==>
                  var p := CurrentPolicy(b).value;
                  && lent == Lent(held, p, Outstanding(b.ledger, cell))
                  && (lent > 0 ==> Outstanding(b.ledger, cell) + lent <= p.maxOutstanding))
  {
    RunStaysWithinCaps(EMPTY, ops);
    var b := Run(EMPTY, ops);
    HoldAdds(b, cell, held, cell);
    hide Hold, Run, Lent, AdvanceAmount, LargestCap;
    if CurrentPolicy(b).Some? {
      LentIsTheAmount(b, cell, held);
    }
  }

  lemma LentIsTheAmount(b: Book, cell: nat, held: nat)
    requires SoundPolicies(b.policies) && CurrentPolicy(b).Some?
    ensures var p, debt := CurrentPolicy(b).value, Outstanding(b.ledger, cell);
            var lent := Lent(held, p, debt);
            && lent == Max(0, AdvanceAmount(b, cell, held)) && 0 <= lent <= held
            && (lent > 0 ==> debt + lent <= p.maxOutstanding)
  {
    ShareIsAtMostTheWhole(held, CurrentPolicy(b).value.basisPoints);
    hide Outstanding;
  }

  // ---- the ledger against the operations -----------------------------------------------------------

  /** A declaration that stands: signed, a share of at most the whole, and a cap of at least nothing. */
  predicate Stands(op: Op) {
    op.DoDeclare? && op.signed && 0 <= op.basisPoints <= 10_000 && op.maxOutstanding >= 0
  }

  /** The last declaration of these operations that stands. */
  function InForce(ops: seq<Op>): Option<Policy> {
    if ops == [] then None
    else
      var op := ops[|ops| - 1];
      if Stands(op) then Some(Policy(op.basisPoints, op.maxOutstanding)) else InForce(ops[..|ops| - 1])
  }

  /** What these operations leave a Cell owing, without a ledger: a hold lends its share of what is
      held as far as the cap leaves room, and a release takes what is owed. */
  function Debt(ops: seq<Op>, cell: nat): int {
    if ops == [] then 0
    else
      var earlier, op := ops[..|ops| - 1], ops[|ops| - 1];
      var debt := Debt(earlier, cell);
      if op.DoHold? && op.cell == cell && InForce(earlier).Some? then
        var p := InForce(earlier).value;
        debt + Lent(op.held, p, debt)
      else if op.DoRelease? && op.cell == cell then Max(0, debt - op.released)
      else debt
  }

  lemma {:induction false} RunEndsWith(b: Book, ops: seq<Op>)
    requires ops != []
    ensures Run(b, ops) == Next(Run(b, ops[..|ops| - 1]), ops[|ops| - 1])
    decreases |ops|
  {
    hide Next;
    if |ops| > 1 {
      RunEndsWith(Next(b, ops[0]), ops[1..]);
      assert ops[1..][..|ops| - 2] == ops[..|ops| - 1][1..];
    }
  }

  lemma DeclaringIsExact(b: Book, op: Op)
    ensures CurrentPolicy(Next(b, op))
         == if Stands(op) then Some(Policy(op.basisPoints, op.maxOutstanding)) else CurrentPolicy(b)
  {}

  lemma HoldingStep(ops: seq<Op>, cell: nat, held: nat)
    requires CurrentPolicy(Run(EMPTY, ops)) == InForce(ops)
    requires Outstanding(Run(EMPTY, ops).ledger, cell) == Debt(ops, cell)
    ensures Outstanding(Hold(Run(EMPTY, ops), cell, held).ledger, cell) == Debt(ops + [DoHold(cell, held)], cell)
  {
    assert (ops + [DoHold(cell, held)])[..|ops|] == ops;
    HoldLends(ops, cell, held);
    hide Run, InForce, CurrentPolicy, Hold, Outstanding, Lent;
  }

  lemma OtherStep(ops: seq<Op>, op: Op, cell: nat)
    requires Outstanding(Run(EMPTY, ops).ledger, cell) == Debt(ops, cell) && !(op.DoHold? && op.cell == cell)
    ensures Outstanding(Next(Run(EMPTY, ops), op).ledger, cell) == Debt(ops + [op], cell)
  {
    assert (ops + [op])[..|ops|] == ops;
    DebtStaysWithinCaps(ops, cell);
    OneStepRepays(Run(EMPTY, ops), op, cell);
    hide Run, InForce, CurrentPolicy, Next, Outstanding, LargestCap;
  }

  /** In every run the policy in force is the last declaration that stands, and every debt is what
      the operations leave. */
  lemma {:induction false} LedgerIsTheDebt(ops: seq<Op>, cell: nat)
    ensures var b := Run(EMPTY, ops);
            CurrentPolicy(b) == InForce(ops) && Outstanding(b.ledger, cell) == Debt(ops, cell)
    decreases |ops|
  {
    if ops == [] {
    } else {
      var earlier, op := ops[..|ops| - 1], ops[|ops| - 1];
      assert ops == earlier + [op];
      LedgerIsTheDebt(earlier, cell);
      RunEndsWith(EMPTY, ops);
      DeclaringIsExact(Run(EMPTY, earlier), op);
      hide Run, Debt, Outstanding, CurrentPolicy;
      if op.DoHold? && op.cell == cell {
        HoldingStep(earlier, cell, op.held);
      } else {
        OtherStep(earlier, op, cell);
        hide Next;
      }
    }
  }

  /** An advance puts money in a Cell's cash out of the funding account and a repayment takes it
      back, to the same amount. */
  lemma {:induction false} RowsAreSigned(b: Book, ops: seq<Op>, i: nat)
    requires forall j :: 0 <= j < |b.ledger| ==> Signed(b.ledger[j])
    requires i < |Run(b, ops).ledger|
    ensures Signed(Run(b, ops).ledger[i])
    decreases |ops|
  {
    if ops == [] {
    } else {
      RowsAreSigned(Next(b, ops[0]), ops[1..], i);
    }
  }

  predicate Signed(t: Transaction) {
    match t.kind
    case Advance => t.cash > 0 && t.funding == -t.cash
    case Repayment => t.cash < 0 && t.funding == -t.cash
    case Unrelated => true
  }

  lemma RefusalsAreExact(b: Book, basisPoints: int, maxOutstanding: int, signed: bool)
    ensures var r := Declare(b, basisPoints, maxOutstanding, signed);
            && (r.Ok? <==> Stands(DoDeclare(basisPoints, maxOutstanding, signed)))
            && (r == Err(BasisPointsOutOfRange) <==> basisPoints < 0 || basisPoints > 10_000)
            && (r == Err(NegativeCap) <==> 0 <= basisPoints <= 10_000 && maxOutstanding < 0)
            && (r == Err(Unsigned) <==> 0 <= basisPoints <= 10_000 && 0 <= maxOutstanding && !signed)
  {}

  // ---- the share in floating point ---

  /** 2^53: below it a double holds every integer, and its error is at most one part in this many. */
  const DOUBLE_STEPS := 9_007_199_254_740_992

  /** `q` may be what correctly rounded division makes of `x`: within its error, and on the same
      side of every integer that a double can hold. */
  ghost predicate Rounds(x: real, q: real) {
    && x - x / DOUBLE_STEPS as real <= q <= x + x / DOUBLE_STEPS as real
    && (x.Floor <= DOUBLE_STEPS ==> x.Floor as real <= q)
  }

  /** The program divides in floating point and floors. While the product is one that a double
      holds exactly, that is the integer division, however the quotient rounds. */
  lemma FloatingShareIsTheShare(held: nat, basisPoints: nat, q: real)
    requires held * basisPoints < DOUBLE_STEPS
    requires Rounds((held * basisPoints) as real / FULL_BASIS_POINTS as real, q)
    ensures q.Floor == held * basisPoints / FULL_BASIS_POINTS
  {
    QuotientFloors(held * basisPoints, q);
  }

  lemma QuotientFloors(a: nat, q: real)
    requires a < DOUBLE_STEPS && Rounds(a as real / FULL_BASIS_POINTS as real, q)
    ensures q.Floor == a / FULL_BASIS_POINTS
  {
    var n := a / FULL_BASIS_POINTS;
    var x := a as real / FULL_BASIS_POINTS as real;
    assert FULL_BASIS_POINTS * n <= a < FULL_BASIS_POINTS * (n + 1);
    assert x.Floor == n;
    assert x / DOUBLE_STEPS as real < 1.0 / FULL_BASIS_POINTS as real;
    assert x + 1.0 / FULL_BASIS_POINTS as real <= (n + 1) as real;
  }

  // ---- conservation -----------------------------------------------------------------------------------

  /** What the funding account has paid out on advances, less what came back. */
  function FundingOutflow(ledger: seq<Transaction>): int {
    if ledger == [] then 0
    else
      var t := ledger[|ledger| - 1];
      FundingOutflow(ledger[..|ledger| - 1]) - if t.kind != Unrelated then t.funding else 0
  }

  function TotalOwed(ledger: seq<Transaction>, cells: nat): int {
    if cells == 0 then 0 else TotalOwed(ledger, cells - 1) + Outstanding(ledger, cells - 1)
  }

  ghost predicate Balanced(ledger: seq<Transaction>, cells: nat) {
    forall i :: 0 <= i < |ledger| && ledger[i].kind != Unrelated ==>
      ledger[i].cell < cells && ledger[i].funding == -ledger[i].cash
  }

  lemma {:induction false} TotalOfOneMore(ledger: seq<Transaction>, t: Transaction, cells: nat)
    ensures TotalOwed(ledger + [t], cells)
         == TotalOwed(ledger, cells) + if t.kind != Unrelated && t.cell < cells then t.cash else 0
  {
    if cells == 0 {
    } else {
      TotalOfOneMore(ledger, t, cells - 1);
      OneMore(ledger, t, cells - 1);
    }
  }

  lemma {:induction false} TotalOfNone(cells: nat)
    ensures TotalOwed([], cells) == 0
  {
    if cells == 0 {
    } else {
      TotalOfNone(cells - 1);
    }
  }

  lemma {:induction false} OutflowIsDebt(ledger: seq<Transaction>, cells: nat)
    requires Balanced(ledger, cells)
    ensures FundingOutflow(ledger) == TotalOwed(ledger, cells)
  {
    if ledger == [] {
      TotalOfNone(cells);
    } else {
      var n := |ledger| - 1;
      OutflowIsDebt(ledger[..n], cells);
      TotalOfOneMore(ledger[..n], ledger[n], cells);
      assert ledger == ledger[..n] + [ledger[n]];
    }
  }

  predicate AboutCellsBelow(op: Op, cells: nat) {
    match op
    case DoHold(cell, _) => cell < cells
    case DoRelease(cell, _) => cell < cells
    case _ => true
  }

  lemma {:induction false} RunStaysBalanced(b: Book, ops: seq<Op>, cells: nat)
    requires Balanced(b.ledger, cells) && forall op :: op in ops ==> AboutCellsBelow(op, cells)
    ensures Balanced(Run(b, ops).ledger, cells)
    decreases |ops|
  {
    if ops == [] {
    } else {
      assert ops[0] in ops;
      RunStaysBalanced(Next(b, ops[0]), ops[1..], cells);
    }
  }

  /** The colony's capital is lent and nothing else: what the funding account is out is what
      the Cells together owe. */
  lemma CapitalIsConserved(ops: seq<Op>, cells: nat)
    requires forall op :: op in ops ==> AboutCellsBelow(op, cells)
    ensures FundingOutflow(Run(EMPTY, ops).ledger) == TotalOwed(Run(EMPTY, ops).ledger, cells)
  {
    RunStaysBalanced(EMPTY, ops, cells);
    OutflowIsDebt(Run(EMPTY, ops).ledger, cells);
  }

  // ---- repayment -----------------------------------------------------------------------------------------

  function ReleasedTo(ops: seq<Op>, cell: nat): nat {
    if ops == [] then 0
    else (if ops[0].DoRelease? && ops[0].cell == cell then ops[0].released else 0) + ReleasedTo(ops[1..], cell)
  }

  lemma OneStepRepays(b: Book, op: Op, cell: nat)
    requires Outstanding(b.ledger, cell) >= 0 && !(op.DoHold? && op.cell == cell)
    ensures Outstanding(Next(b, op).ledger, cell)
         == Max(0, Outstanding(b.ledger, cell) - if op.DoRelease? && op.cell == cell then op.released else 0)
  {
    hide AdvanceAmount;
    match op
    case DoRelease(c, released) =>
      var amount := Min(Outstanding(b.ledger, c), released);
      OneMore(b.ledger, Transaction(Repayment, c, -amount, amount), cell);
    case DoHold(c, held) =>
      var amount := AdvanceAmount(b, c, held);
      OneMore(b.ledger, Transaction(Advance, c, amount, -amount), cell);
    case Post(c, cash, funding) =>
      OneMore(b.ledger, Transaction(Unrelated, c, cash, funding), cell);
    case DoDeclare(_, _, _) =>
  }

  /** Without a new hold for the Cell, releases bring its debt down one for one and stop at
      zero. So they clear it exactly when they total at least the debt, and the rest stays
      with the Cell. */
  lemma {:induction false} ReleasesClearDebt(b: Book, ops: seq<Op>, cell: nat)
    requires Outstanding(b.ledger, cell) >= 0
    requires forall op :: op in ops ==> !(op.DoHold? && op.cell == cell)
    ensures Outstanding(Run(b, ops).ledger, cell) == Max(0, Outstanding(b.ledger, cell) - ReleasedTo(ops, cell))
    decreases |ops|
  {
    if ops == [] {
    } else {
      assert ops[0] in ops;
      OneStepRepays(b, ops[0], cell);
      ReleasesClearDebt(Next(b, ops[0]), ops[1..], cell);
    }
  }
}
