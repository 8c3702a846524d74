/**
 Selecting one wake's context within a token budget (src/mitosis/context.py, `assemble`).
 A section is its name, its text and whether it may be dropped; what the texts say is not
 modelled.
 */
module Context {
  import opened Basics

  const CHARS_PER_TOKEN := 4

  datatype Section = Section(name: string, body: string, required: bool)

  datatype Error = BudgetNotPositive | RequiredExceedsBudget

  /** `ceil(len / 4)`, and at least one. */
  function EstimateTokens(text: string): (n: nat)
    ensures n >= 1 && 4 * n >= |text|
    ensures n == 1 || 4 * (n - 1) < |text|
  {
    Max(1, (|text| + CHARS_PER_TOKEN - 1) / CHARS_PER_TOKEN)
  }

  function Tokens(s: Section): nat {
    EstimateTokens(s.body)
  }

  function Total(ss: seq<Section>): nat {
    if ss == [] then 0 else Total(ss[..|ss| - 1]) + Tokens(ss[|ss| - 1])
  }

  function RequiredTotal(ss: seq<Section>): nat {
    if ss == [] then 0
    else RequiredTotal(ss[..|ss| - 1]) + if ss[|ss| - 1].required then Tokens(ss[|ss| - 1]) else 0
  }

  /** What becomes of one candidate. */
  datatype Fate = Kept | Noted(note: Section) | Dropped

  /** What the loop holds after some candidates: their fates, and the optional tokens spent. */
  datatype Progress = Progress(fates: seq<Fate>, used: nat)

  function FateOf(s: Section, fallbacks: map<string, Section>, used: nat, room: int): Fate {
    if s.required || used + Tokens(s) <= room then Kept
    else if s.name in fallbacks && used + Tokens(fallbacks[s.name]) <= room then Noted(fallbacks[s.name])
    else Dropped
  }

  function Cost(s: Section, fate: Fate): nat {
    match fate
    case Kept => if s.required then 0 else Tokens(s)
    case Noted(note) => Tokens(note)
    case Dropped => 0
  }

  function Select(cs: seq<Section>, fallbacks: map<string, Section>, room: int): (p: Progress)
    ensures |p.fates| == |cs|
  {
    if cs == [] then Progress([], 0)
    else
      var n := |cs| - 1;
      var before := Select(cs[..n], fallbacks, room);
      var fate := FateOf(cs[n], fallbacks, before.used, room);
      Progress(before.fates + [fate], before.used + Cost(cs[n], fate))
  }

  function Shown(s: Section, fate: Fate): seq<Section> {
    match fate
    case Kept => [s]
    case Noted(note) => [note]
    case Dropped => []
  }

  /** The sections that go out, in candidate order. */
  function Sections(cs: seq<Section>, fates: seq<Fate>): seq<Section>
    requires |cs| == |fates|
  {
    if cs == [] then []
    else
      var n := |cs| - 1;
      Sections(cs[..n], fates[..n]) + Shown(cs[n], fates[n])
  }

  /** The names reported as dropped, a section swapped for its note included. */
  function DroppedNames(cs: seq<Section>, fates: seq<Fate>): seq<string>
    requires |cs| == |fates|
  {
    if cs == [] then []
    else
      var n := |cs| - 1;
      DroppedNames(cs[..n], fates[..n]) + if fates[n].Kept? then [] else [cs[n].name]
  }

  /** Everything a wake could be shown: the sections ahead of the draft, the draft under
      revision if there is one with the note that can stand in for it, and the rest. */
  datatype Offer = Offer(
    ahead: seq<Section>,
    draft: Option<Section>,
    draftNote: Section,
    rest: seq<Section>,
    fallbacks: map<string, Section>)

  datatype Assembled = Assembled(sections: seq<Section>, dropped: seq<string>)

  function DraftIn(o: Offer): seq<Section> {
    if o.draft.Some? then [o.draft.value] else []
  }

  /** The draft gives way to its note when it does not fit beside the required sections. */
  function Candidates(o: Offer, budget: int): seq<Section> {
    var all := o.ahead + DraftIn(o) + o.rest;
    if o.draft.Some? && RequiredTotal(all) + Tokens(o.draft.value) > budget then o.ahead + [o.draftNote] + o.rest
    else all
  }

  /** `assemble`. */
  function Assemble(o: Offer, budget: int): Result<Assembled, Error> {
    if budget <= 0 then Err(BudgetNotPositive)
    else
      var cs := Candidates(o, budget);
      if RequiredTotal(cs) > budget then Err(RequiredExceedsBudget)
      else
        var fates := Select(cs, o.fallbacks, budget - RequiredTotal(cs)).fates;
        Ok(Assembled(Sections(cs, fates), DroppedNames(cs, fates)))
  }

  // ---- as the program runs it ------------------------------------------------------------

  method SumRequired(cs: seq<Section>) returns (total: nat)
    ensures total == RequiredTotal(cs)
    ensures total <= Total(cs)
  {
    total := 0;
    for i := 0 to |cs|
      invariant total == RequiredTotal(cs[..i]) && total <= Total(cs[..i])
    {
      assert cs[..i + 1][..i] == cs[..i];
      if cs[i].required {
        total := total + Tokens(cs[i]);
      }
    }
    assert cs[..|cs|] == cs;
  }

  /** The selection loop: required sections always, optional ones while they fit. */
  method SelectSections(candidates: seq<Section>, fallbacks: map<string, Section>, room: nat)
    returns (kept: seq<Section>, dropped: seq<string>)
    ensures var fates := Select(candidates, fallbacks, room).fates;
            kept == Sections(candidates, fates) && dropped == DroppedNames(candidates, fates)
    ensures Total(kept) <= RequiredTotal(candidates) + room
  {
    var used: nat := 0;
    kept, dropped := [], [];
    for i := 0 to |candidates|
      invariant var p := Select(candidates[..i], fallbacks, room);
                && used == p.used && kept == Sections(candidates[..i], p.fates)
                && dropped == DroppedNames(candidates[..i], p.fates)
    {
      var section := candidates[i];
      SelectOneMore(candidates, fallbacks, room, i);
      if section.required {
        kept := kept + [section];
        continue;
      }
      if used + Tokens(section) > room {
        dropped := dropped + [section.name];
        if section.name in fallbacks && used + Tokens(fallbacks[section.name]) <= room {
          kept := kept + [fallbacks[section.name]];
          used := used + Tokens(fallbacks[section.name]);
        }
        continue;
      }
      kept := kept + [section];
      used := used + Tokens(section);
    }
    assert candidates[..|candidates|] == candidates;
    SpentWithinRoom(candidates, fallbacks, room);
    SectionsCost(candidates, fallbacks, room);
  }

  lemma SelectOneMore(cs: seq<Section>, fallbacks: map<string, Section>, room: int, i: nat)
    requires i < |cs|
    ensures var before, after := Select(cs[..i], fallbacks, room), Select(cs[..i + 1], fallbacks, room);
            var fate := FateOf(cs[i], fallbacks, before.used, room);
            && after.used == before.used + Cost(cs[i], fate)
            && Sections(cs[..i + 1], after.fates) == Sections(cs[..i], before.fates) + Shown(cs[i], fate)
            && DroppedNames(cs[..i + 1], after.fates)
               == DroppedNames(cs[..i], before.fates) + if fate.Kept? then [] else [cs[i].name]
  {
    var before, after := Select(cs[..i], fallbacks, room), Select(cs[..i + 1], fallbacks, room);
    assert cs[..i + 1][..i] == cs[..i];
    assert after.fates[..i] == before.fates;
  }

  method AssembleContext(o: Offer, budget: int) returns (r: Result<Assembled, Error>)
    ensures r == Assemble(o, budget)
    ensures r.Ok? ==> Total(r.value.sections) <= budget
  {
    hide Select, Sections, DroppedNames, RequiredTotal, Total, Tokens;
    if budget <= 0 {
      return Err(BudgetNotPositive);
    }
    var candidates := o.ahead + DraftIn(o) + o.rest;
    if o.draft.Some? {
      var before := SumRequired(candidates);
      if before + Tokens(o.draft.value) > budget {
        candidates := o.ahead + [o.draftNote] + o.rest;
      }
    }
    assert candidates == Candidates(o, budget);
    var required := SumRequired(candidates);
    if required > budget {
      return Err(RequiredExceedsBudget);
    }
    var kept, dropped := SelectSections(candidates, o.fallbacks, budget - required);
    return Ok(Assembled(kept, dropped));
  }

  // ---- the budget -----------------------------------------------------------------------------

  lemma {:induction false} SpentWithinRoom(cs: seq<Section>, fallbacks: map<string, Section>, room: int)
    requires room >= 0
    ensures Select(cs, fallbacks, room).used <= room
  {
    if cs == [] {
    } else {
      SpentWithinRoom(cs[..|cs| - 1], fallbacks, room);
    }
  }

  lemma TotalOfOneMore(ss: seq<Section>, s: Section)
    ensures Total(ss + [s]) == Total(ss) + Tokens(s)
  {
    assert (ss + [s])[..|ss|] == ss;
  }

  /** What goes out costs the required sections plus what the loop counted. */
  lemma {:induction false} SectionsCost(cs: seq<Section>, fallbacks: map<string, Section>, room: int)
    ensures var p := Select(cs, fallbacks, room);
            Total(Sections(cs, p.fates)) == RequiredTotal(cs) + p.used
  {
    if cs == [] {
    } else {
      var n := |cs| - 1;
      var p, before := Select(cs, fallbacks, room), Select(cs[..n], fallbacks, room);
      SectionsCost(cs[..n], fallbacks, room);
      assert p.fates[..n] == before.fates;
      match p.fates[n]
      case Kept => TotalOfOneMore(Sections(cs[..n], before.fates), cs[n]);
      case Noted(note) => TotalOfOneMore(Sections(cs[..n], before.fates), note);
      case Dropped =>
        assert Sections(cs[..n], before.fates) + [] == Sections(cs[..n], before.fates);
    }
  }

  /** A context that is assembled never exceeds its budget. */
  lemma NeverOverBudget(o: Offer, budget: int)
    requires Assemble(o, budget).Ok?
    ensures Total(Assemble(o, budget).value.sections) <= budget
  {
    hide Select, Total, RequiredTotal, Sections, DroppedNames, Candidates;
    var cs := Candidates(o, budget);
    SpentWithinRoom(cs, o.fallbacks, budget - RequiredTotal(cs));
    SectionsCost(cs, o.fallbacks, budget - RequiredTotal(cs));
  }

  /** Assembly is refused for a budget of nothing, and otherwise exactly when the required sections,
      the draft's note among them where it has to stand in, do not fit. */
  lemma RefusalsAreExact(o: Offer, budget: int)
    ensures Assemble(o, budget) == Err(BudgetNotPositive) <==> budget <= 0
    ensures Assemble(o, budget) == Err(RequiredExceedsBudget) <==>
              budget > 0 && RequiredTotal(Candidates(o, budget)) > budget
  {
    hide Select, Sections, DroppedNames, Candidates, RequiredTotal;
  }

  // ---- each candidate's fate ---------------------------------------------------------------------

  /** What had been spent when candidate `i` had its turn. */
  function UsedBefore(cs: seq<Section>, fallbacks: map<string, Section>, room: int, i: nat): nat
    requires i <= |cs|
  {
    Select(cs[..i], fallbacks, room).used
  }

  lemma {:induction false} FateAtItsTurn(cs: seq<Section>, fallbacks: map<string, Section>, room: int, i: nat)
    requires i < |cs|
    ensures Select(cs, fallbacks, room).fates[i] == FateOf(cs[i], fallbacks, UsedBefore(cs, fallbacks, room, i), room)
    decreases |cs|
  {
    var n := |cs| - 1;
    if i == n {
    } else {
      FateAtItsTurn(cs[..n], fallbacks, room, i);
      assert cs[..n][..i] == cs[..i];
    }
  }

  /** Every required section is kept; an optional one is kept exactly when it fitted what was
      left at its turn. */
  lemma KeptExactlyWhenItFits(cs: seq<Section>, fallbacks: map<string, Section>, room: int, i: nat)
    requires i < |cs|
    ensures Select(cs, fallbacks, room).fates[i] == Kept
       <==> cs[i].required || UsedBefore(cs, fallbacks, room, i) + Tokens(cs[i]) <= room
  {
    FateAtItsTurn(cs, fallbacks, room, i);
  }

  lemma {:induction false} RequiredIsPart(cs: seq<Section>)
    ensures RequiredTotal(cs) <= Total(cs)
  {
    if cs == [] {
    } else {
      RequiredIsPart(cs[..|cs| - 1]);
    }
  }

  lemma {:induction false} NothingDroppedIsWhole(cs: seq<Section>, fates: seq<Fate>)
    requires |cs| == |fates| && DroppedNames(cs, fates) == []
    ensures Sections(cs, fates) == cs
  {
    if cs == [] {
    } else {
      var n := |cs| - 1;
      NothingDroppedIsWhole(cs[..n], fates[..n]);
      assert cs == cs[..n] + [cs[n]];
    }
  }

  lemma {:induction false} AllFitsIsKept(cs: seq<Section>, fallbacks: map<string, Section>, room: int)
    requires Total(cs) - RequiredTotal(cs) <= room
    ensures Select(cs, fallbacks, room).used == Total(cs) - RequiredTotal(cs)
    ensures DroppedNames(cs, Select(cs, fallbacks, room).fates) == []
  {
    if cs == [] {
    } else {
      var n := |cs| - 1;
      RequiredIsPart(cs[..n]);
      AllFitsIsKept(cs[..n], fallbacks, room);
      assert Select(cs, fallbacks, room).fates[..n] == Select(cs[..n], fallbacks, room).fates;
    }
  }

  /** Nothing is reported dropped exactly when all the candidates together fit the budget, and
      then the context is the candidates. */
  lemma NothingDroppedExactlyWhenAllFits(o: Offer, budget: int)
    requires Assemble(o, budget).Ok?
    ensures Assemble(o, budget).value.dropped == [] <==> Total(Candidates(o, budget)) <= budget
    ensures Assemble(o, budget).value.dropped == [] ==> Assemble(o, budget).value.sections == Candidates(o, budget)
  {
    var cs := Candidates(o, budget);
    var fates := Select(cs, o.fallbacks, budget - RequiredTotal(cs)).fates;
    if Total(cs) <= budget {
      AllFitsIsKept(cs, o.fallbacks, budget - RequiredTotal(cs));
    }
    if DroppedNames(cs, fates) == [] {
      NothingDroppedIsWhole(cs, fates);
      NeverOverBudget(o, budget);
    }
  }

  function RequiredOnly(cs: seq<Section>): seq<Section> {
    if cs == [] then []
    else RequiredOnly(cs[..|cs| - 1]) + if cs[|cs| - 1].required then [cs[|cs| - 1]] else []
  }

  ghost predicate NotesAreOptional(fallbacks: map<string, Section>) {
    forall name :: name in fallbacks ==> !fallbacks[name].required
  }

  lemma RequiredOfOneMore(ss: seq<Section>, s: Section)
    ensures RequiredOnly(ss + [s]) == RequiredOnly(ss) + if s.required then [s] else []
  {
    assert (ss + [s])[..|ss|] == ss;
  }

  lemma {:induction false} RequiredGoOut(cs: seq<Section>, fallbacks: map<string, Section>, room: int)
    requires NotesAreOptional(fallbacks)
    ensures RequiredOnly(Sections(cs, Select(cs, fallbacks, room).fates)) == RequiredOnly(cs)
  {
    if cs == [] {
    } else {
      var n := |cs| - 1;
      var p, before := Select(cs, fallbacks, room), Select(cs[..n], fallbacks, room);
      RequiredGoOut(cs[..n], fallbacks, room);
      assert p.fates[..n] == before.fates;
      match p.fates[n]
      case Kept => RequiredOfOneMore(Sections(cs[..n], before.fates), cs[n]);
      case Noted(note) => RequiredOfOneMore(Sections(cs[..n], before.fates), note);
      case Dropped =>
        assert Sections(cs[..n], before.fates) + [] == Sections(cs[..n], before.fates);
    }
  }

  /** The required sections go out whole, each once and in order. */
  lemma RequiredSurvive(o: Offer, budget: int)
    requires Assemble(o, budget).Ok? && NotesAreOptional(o.fallbacks)
    ensures RequiredOnly(Assemble(o, budget).value.sections) == RequiredOnly(Candidates(o, budget))
  {
    var cs := Candidates(o, budget);
    RequiredGoOut(cs, o.fallbacks, budget - RequiredTotal(cs));
  }

  // ---- every candidate is accounted for -----------------------------------------------------------

  function FatesOf(o: Offer, budget: int): (fates: seq<Fate>)
    ensures |fates| == |Candidates(o, budget)|
  {
    var cs := Candidates(o, budget);
    Select(cs, o.fallbacks, budget - RequiredTotal(cs)).fates
  }

  /** The candidates that go out themselves, in candidate order. */
  function KeptOf(cs: seq<Section>, fates: seq<Fate>): seq<Section>
    requires |cs| == |fates|
  {
    if cs == [] then []
    else
      var n := |cs| - 1;
      KeptOf(cs[..n], fates[..n]) + if fates[n].Kept? then [cs[n]] else []
  }

  function Names(ss: seq<Section>): seq<string> {
    if ss == [] then [] else Names(ss[..|ss| - 1]) + [ss[|ss| - 1].name]
  }

  /** How many of the fates put a section in the context. */
  function ShownCount(fates: seq<Fate>): nat {
    if fates == [] then 0
    else ShownCount(fates[..|fates| - 1]) + if fates[|fates| - 1].Dropped? then 0 else 1
  }

  function DroppedCount(fates: seq<Fate>): nat {
    if fates == [] then 0
    else DroppedCount(fates[..|fates| - 1]) + if fates[|fates| - 1].Kept? then 0 else 1
  }

  lemma {:induction false} ShownInPlace(cs: seq<Section>, fates: seq<Fate>, i: nat)
    requires |cs| == |fates| && i < |cs|
    ensures |Sections(cs, fates)| == ShownCount(fates)
    ensures !fates[i].Dropped? ==>
              && ShownCount(fates[..i]) < ShownCount(fates)
              && [Sections(cs, fates)[ShownCount(fates[..i])]] == Shown(cs[i], fates[i])
    decreases |cs|
  {
    var n := |cs| - 1;
    assert fates[..n + 1] == fates;
    if n == 0 {
      assert Sections(cs[..0], fates[..0]) == [] && fates[..i] == [];
    } else if i == n {
      ShownInPlace(cs[..n], fates[..n], 0);
    } else {
      ShownInPlace(cs[..n], fates[..n], i);
      assert fates[..n][..i] == fates[..i];
    }
  }

  lemma {:induction false} DroppedInPlace(cs: seq<Section>, fates: seq<Fate>, i: nat)
    requires |cs| == |fates| && i < |cs|
    ensures |DroppedNames(cs, fates)| == DroppedCount(fates)
    ensures !fates[i].Kept? ==>
              && DroppedCount(fates[..i]) < DroppedCount(fates)
              && DroppedNames(cs, fates)[DroppedCount(fates[..i])] == cs[i].name
    decreases |cs|
  {
    var n := |cs| - 1;
    assert fates[..n + 1] == fates;
    if n == 0 {
      assert DroppedNames(cs[..0], fates[..0]) == [] && fates[..i] == [];
    } else if i == n {
      DroppedInPlace(cs[..n], fates[..n], 0);
    } else {
      DroppedInPlace(cs[..n], fates[..n], i);
      assert fates[..n][..i] == fates[..i];
    }
  }

  lemma NamesOfOneMore(ss: seq<Section>, s: Section)
    ensures Names(ss + [s]) == Names(ss) + [s.name]
  {
    assert (ss + [s])[..|ss|] == ss;
  }

  /** The names of `a` and of `b`, repeats counted, are those of `c`. */
  ghost predicate Splits(a: seq<string>, b: seq<string>, c: seq<string>) {
    multiset(a) + multiset(b) == multiset(c)
  }

  lemma OneMoreOnEitherSide(a: seq<string>, b: seq<string>, c: seq<string>, x: string)
    requires Splits(a, b, c)
    ensures Splits(a + [x], b, c + [x]) && Splits(a, b + [x], c + [x])
  {
  }

  lemma NothingSplits()
    ensures Names([]) == [] && Splits([], [], [])
  {
  }

  lemma {:induction false} NamesAreSplit(cs: seq<Section>, fates: seq<Fate>)
    requires |cs| == |fates|
    ensures Splits(Names(KeptOf(cs, fates)), DroppedNames(cs, fates), Names(cs))
  {
    hide Splits, Names;
    if cs == [] {
      NothingSplits();
    } else {
      var n := |cs| - 1;
      var kept, dropped := KeptOf(cs[..n], fates[..n]), DroppedNames(cs[..n], fates[..n]);
      NamesAreSplit(cs[..n], fates[..n]);
      NamesOfOneMore(cs[..n], cs[n]);
      assert cs[..n] + [cs[n]] == cs;
      OneMoreOnEitherSide(Names(kept), dropped, Names(cs[..n]), cs[n].name);
      if fates[n].Kept? {
        NamesOfOneMore(kept, cs[n]);
        assert dropped + [] == dropped;
      } else {
        assert kept + [] == kept;
      }
    }
  }

  /** What stands in the context and in the report for candidate `i`. */
  ghost predicate StandsInPlace(out: Assembled, s: Section, fates: seq<Fate>, i: nat)
    requires i < |fates|
  {
    var place, drop := ShownCount(fates[..i]), DroppedCount(fates[..i]);
    && (!fates[i].Dropped? ==> place < |out.sections| && [out.sections[place]] == Shown(s, fates[i]))
    && (!fates[i].Kept? ==> drop < |out.dropped| && out.dropped[drop] == s.name)
  }

  lemma EachStandsInPlace(o: Offer, budget: int, i: nat)
    requires Assemble(o, budget).Ok? && i < |Candidates(o, budget)|
    ensures StandsInPlace(Assemble(o, budget).value, Candidates(o, budget)[i], FatesOf(o, budget), i)
    ensures |Assemble(o, budget).value.sections| == ShownCount(FatesOf(o, budget))
    ensures |Assemble(o, budget).value.dropped| == DroppedCount(FatesOf(o, budget))
  {
    hide Select, Sections, DroppedNames, RequiredTotal, ShownCount, DroppedCount, Candidates, Shown;
    ShownInPlace(Candidates(o, budget), FatesOf(o, budget), i);
    DroppedInPlace(Candidates(o, budget), FatesOf(o, budget), i);
  }

  /** Candidate by candidate: one that is required or fits what is left at its turn goes out in
      its own place; any other is named as dropped in its place, and its note goes out in its
      place exactly when there is one and that fits. Nothing else is in either list. */
  lemma EveryCandidateIsAccountedFor(o: Offer, budget: int, i: nat)
    requires Assemble(o, budget).Ok? && i < |Candidates(o, budget)|
    ensures var out, cs, fates := Assemble(o, budget).value, Candidates(o, budget), FatesOf(o, budget);
            var place, drop := ShownCount(fates[..i]), DroppedCount(fates[..i]);
            var room := budget - RequiredTotal(cs);
            var used := UsedBefore(cs, o.fallbacks, room, i);
            && |out.sections| == ShownCount(fates) && |out.dropped| == DroppedCount(fates)
            && (if cs[i].required || used + Tokens(cs[i]) <= room then
                  fates[i] == Kept && place < |out.sections| && out.sections[place] == cs[i]
                else
                  && drop < |out.dropped| && out.dropped[drop] == cs[i].name
                  && (if cs[i].name in o.fallbacks && used + Tokens(o.fallbacks[cs[i].name]) <= room then
                        fates[i].Noted? && place < |out.sections| && out.sections[place] == o.fallbacks[cs[i].name]
                      else fates[i] == Dropped))
  {
    var cs := Candidates(o, budget);
    FateAtItsTurn(cs, o.fallbacks, budget - RequiredTotal(cs), i);
    EachStandsInPlace(o, budget, i);
    hide Assemble, Select, Sections, DroppedNames, RequiredTotal, ShownCount, DroppedCount, Tokens, UsedBefore,
        Candidates;
  }

  /** By name: what is kept and what is reported dropped together are the candidates. */
  lemma NamesAreAccountedFor(o: Offer, budget: int)
    requires Assemble(o, budget).Ok?
    ensures var cs := Candidates(o, budget);
            Splits(Names(KeptOf(cs, FatesOf(o, budget))), Assemble(o, budget).value.dropped, Names(cs))
  {
    NamesAreSplit(Candidates(o, budget), FatesOf(o, budget));
  }

  /** Which of the sections that go out are notes. */
  function NoteMarks(fates: seq<Fate>): seq<bool> {
    if fates == [] then []
    else
      NoteMarks(fates[..|fates| - 1]) +
      match fates[|fates| - 1]
      case Kept => [false]
      case Noted(_) => [true]
      case Dropped => []
  }

  function WithoutNotes(ss: seq<Section>, marks: seq<bool>): seq<Section>
    decreases |ss|
  {
    if ss == [] || |marks| != |ss| then []
    else
      var n := |ss| - 1;
      WithoutNotes(ss[..n], marks[..n]) + if marks[n] then [] else [ss[n]]
  }

  lemma {:induction false} OneMarkEach(cs: seq<Section>, fates: seq<Fate>)
    requires |cs| == |fates|
    ensures |NoteMarks(fates)| == |Sections(cs, fates)|
  {
    if cs == [] {
    } else {
      OneMarkEach(cs[..|cs| - 1], fates[..|cs| - 1]);
    }
  }

  lemma {:induction false} NotesTakenOut(cs: seq<Section>, fates: seq<Fate>)
    requires |cs| == |fates|
    ensures WithoutNotes(Sections(cs, fates), NoteMarks(fates)) == KeptOf(cs, fates)
  {
    if cs == [] {
    } else {
      var n := |cs| - 1;
      NotesTakenOut(cs[..n], fates[..n]);
      OneMarkEach(cs[..n], fates[..n]);
      var shown, marks := Sections(cs[..n], fates[..n]), NoteMarks(fates[..n]);
      if fates[n].Dropped? {
        assert shown + [] == shown && marks + [] == marks;
        assert KeptOf(cs[..n], fates[..n]) + [] == KeptOf(cs[..n], fates[..n]);
      } else {
        var all, allMarks := Sections(cs, fates), NoteMarks(fates);
        assert all[..|shown|] == shown && allMarks[..|marks|] == marks;
      }
    }
  }

  /** With the notes taken out, the context is the kept candidates in candidate order. */
  lemma ContextWithoutNotesIsKept(o: Offer, budget: int)
    requires Assemble(o, budget).Ok?
    ensures var fates := FatesOf(o, budget);
            WithoutNotes(Assemble(o, budget).value.sections, NoteMarks(fates)) == KeptOf(Candidates(o, budget), fates)
  {
    hide Select, Sections, DroppedNames, RequiredTotal, Candidates, WithoutNotes, NoteMarks, KeptOf;
    NotesTakenOut(Candidates(o, budget), FatesOf(o, budget));
  }

  // ---- the draft under revision ----------------------------------------------------------------------

  lemma {:induction false} RequiredTotalOfParts(a: seq<Section>, b: seq<Section>)
    ensures RequiredTotal(a + b) == RequiredTotal(a) + RequiredTotal(b)
  {
    if b == [] {
      assert a + b == a;
    } else {
      var n := |b| - 1;
      RequiredTotalOfParts(a, b[..n]);
      assert (a + b)[..|a| + n] == a + b[..n];
    }
  }

  lemma RequiredTotalAround(a: seq<Section>, s: Section, b: seq<Section>)
    ensures RequiredTotal(a + [s] + b) == RequiredTotal(a + b) + if s.required then Tokens(s) else 0
  {
    RequiredTotalOfParts(a + [s], b);
    RequiredTotalOfParts(a, [s]);
    RequiredTotalOfParts(a, b);
    assert [s][..0] == [];
  }

  /** The optional sections ahead of the draft that were kept before its turn. */
  function SpentAhead(o: Offer, room: int): nat {
    Select(o.ahead, o.fallbacks, room).used
  }

  /** Exactly what becomes of a draft under revision. With `others` the required tokens of
      everything else:
      - if it does not fit beside them, its note takes its place, and assembly raises exactly
        when not even the note fits;
      - if it does, it is shown exactly when it also fits beside the optional sections ahead of
        it that were kept, and otherwise it is dropped with no note. */
  lemma DraftFate(o: Offer, budget: int)
    requires budget > 0 && o.draft.Some? && !o.draft.value.required && o.draftNote.required
    requires o.draft.value.name !in o.fallbacks
    ensures var others := RequiredTotal(o.ahead + o.rest);
            var draft := o.draft.value;
            var room := budget - others;
            var cs := Candidates(o, budget);
            && |cs| == |o.ahead| + 1 + |o.rest|
            && (others + Tokens(draft) > budget ==>
                  && cs[|o.ahead|] == o.draftNote
                  && (Assemble(o, budget).Err? <==> others + Tokens(o.draftNote) > budget))
            && (others + Tokens(draft) <= budget ==>
                  && cs[|o.ahead|] == draft && Assemble(o, budget).Ok?
                  && Select(cs, o.fallbacks, room).fates[|o.ahead|]
                  == if SpentAhead(o, room) + Tokens(draft) <= room then Kept else Dropped)
  {
    hide Tokens, RequiredTotal, Sections, DroppedNames;
    var draft := o.draft.value;
    RequiredTotalAround(o.ahead, draft, o.rest);
    RequiredTotalAround(o.ahead, o.draftNote, o.rest);
    var others := RequiredTotal(o.ahead + o.rest);
    if others + Tokens(draft) <= budget {
      var cs := o.ahead + [draft] + o.rest;
      assert Candidates(o, budget) == cs;
      FateAtItsTurn(cs, o.fallbacks, budget - others, |o.ahead|);
      assert cs[..|o.ahead|] == o.ahead;
    }
  }

  /** So a draft that fits beside everything required can still be dropped without a word: the
      record ahead of it, which is optional, took its room. */
  lemma DraftCanVanish()
    returns (o: Offer, budget: int)
    ensures budget > 0 && o.draft.Some? && RequiredTotal(o.ahead + o.rest) + Tokens(o.draft.value) <= budget
    ensures Assemble(o, budget) == Ok(Assembled(o.ahead, [o.draft.value.name]))
    ensures |o.ahead| == 1 && !o.ahead[0].required
  {
    var record, draft := Section("record", "r", false), Section("draft", "d", false);
    o := Offer([record], Some(draft), Section("note", "n", true), [], map[]);
    budget := 1;
    var cs := [record, draft];
    assert o.ahead + DraftIn(o) + o.rest == cs && cs[..1] == [record] && [record][..0] == [];
    assert RequiredTotal([record]) == 0 && RequiredTotal(cs) == 0;
    assert o.ahead + o.rest == [record];
    assert Candidates(o, 1) == cs;
    assert Select([record], o.fallbacks, 1) == Progress([Kept], 1);
    assert Select(cs, o.fallbacks, 1) == Progress([Kept, Dropped], 1);
    var fates := [Kept, Dropped];
    assert fates[..1] == [Kept] && [Kept][..0] == [];
    assert Sections([record], [Kept]) == [record] && DroppedNames([record], [Kept]) == [];
    assert Sections(cs, fates) == [record] && DroppedNames(cs, fates) == ["draft"];
  }
}
